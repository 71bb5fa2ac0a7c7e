/** What the services rely on from Spring Data's `JpaRepository` with
    database-generated identities: entities kept in a map from id to
    entity, and the id `save` stores an entity under. */
module Repository {
  import opened Wrappers

  /** `save`: an entity whose id is already stored replaces that entry;
      any other entity is stored under the next identity value. */
  function SaveId<T>(store: map<int, T>, nextId: int, requested: Option<int>): (k: int)
    ensures requested.Some? && requested.value in store ==> k == requested.value
    ensures !(requested.Some? && requested.value in store) ==> k == nextId
  {
    if requested.Some? && requested.value in store then requested.value else nextId
  }
}
