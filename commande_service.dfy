/** The commande service: the same order handling as the order service but
    with no notion of a caller. Every commande is visible to everyone, and
    the owner field is stored as the client sent it. */
module CommandeServiceModel {
  import opened Wrappers
  import opened Repository
  import opened OrderDomain

  /** A commande has exactly the fields of an order. */
  type Commande = Order

  class CommandeService {
    var commandes: map<int, Commande>
    var nextId: int

    /** Every commande is stored under its own id, below the next identity
        value, and its items carry no product copy. */
    ghost predicate Valid()
      reads this
    {
      && nextId >= 1
      && forall k :: k in commandes ==> commandes[k].id == Some(k) && 1 <= k < nextId && Unloaded(commandes[k])
    }

    constructor ()
      ensures commandes == map[] && nextId == 1 && Valid()
    {
      commandes := map[];
      nextId := 1;
    }

    /** `getCommandeById`: nothing for an unknown id, else the commande
        with its products enriched; no access check. */
    method GetCommandeById(id: int, catalog: int -> Lookup) returns (r: Option<Commande>)
      ensures id !in commandes ==> r.None?
      ensures id in commandes ==> r == Some(EnrichOrder(commandes[id], catalog))
    {
      if id !in commandes {
        return None;
      }
      var commande := commandes[id];
      if commande.orderItems.Some? {
        var items := EnrichProducts(commande.orderItems.value, catalog);
        commande := commande.(orderItems := Some(items));
      }
      r := Some(commande);
    }

    /** `createCommande`: dated when it has no date, priced from the
        catalogue and saved without its items' product copies, which the
        answer keeps; the owner is kept as sent. An exception while
        pricing leaves the store as it was. */
    method CreateCommande(commande: Commande, now: int, catalog: int -> Lookup)
      returns (r: Result<Commande, PricingError>)
      requires Valid()
      modifies this
      ensures Valid()
      ensures r.Err? <==> Placed(commande, now, catalog).Err?
      ensures r.Err? ==> r.error == Placed(commande, now, catalog).error &&
                         commandes == old(commandes) && nextId == old(nextId)
      ensures r.Ok? ==>
                var k := SaveId(old(commandes), old(nextId), commande.id);
                && r.value == Placed(commande, now, catalog).value.(id := Some(k))
                && commandes == old(commandes)[k := Persisted(r.value)]
                && nextId == (if k == old(nextId) then old(nextId) + 1 else old(nextId))
      ensures r.Ok? ==> r.value.userId == commande.userId
    {
      var placed := commande;
      if placed.orderDate.None? {
        placed := placed.(orderDate := Some(now));
      }
      var total := 0;
      if placed.orderItems.Some? {
        var priced := PriceItems(placed.orderItems.value, catalog);
        if priced.Err? {
          return Err(priced.error);
        }
        placed := placed.(orderItems := Some(priced.value.0));
        total := priced.value.1;
      }
      placed := placed.(totalAmount := Some(total));
      var k := SaveId(commandes, nextId, placed.id);
      placed := placed.(id := Some(k));
      commandes := commandes[k := Persisted(placed)];
      if k == nextId {
        nextId := nextId + 1;
      }
      r := Ok(placed);
    }

    /** `updateCommande`: only the status and the total of a stored
        commande change; an unknown id changes nothing. */
    method UpdateCommande(id: int, details: Commande) returns (r: Option<Commande>)
      requires Valid()
      modifies this
      ensures Valid()
      ensures id !in old(commandes) ==> r.None? && commandes == old(commandes)
      ensures id in old(commandes) ==>
                && r == Some(old(commandes)[id].(status := details.status, totalAmount := details.totalAmount))
                && commandes == old(commandes)[id := r.value]
      ensures nextId == old(nextId)
    {
      if id in commandes {
        var commande := commandes[id].(status := details.status, totalAmount := details.totalAmount);
        commandes := commandes[id := commande];
        return Some(commande);
      }
      r := None;
    }

    /** `deleteCommandeById`: removes the commande if there is one. */
    method DeleteCommandeById(id: int)
      requires Valid()
      modifies this
      ensures Valid()
      ensures commandes == old(commandes) - {id} && nextId == old(nextId)
    {
      commandes := commandes - {id};
    }

    /** `getAllCommandes`: every stored commande, its products enriched. */
    method GetAllCommandes(catalog: int -> Lookup) returns (r: set<Commande>)
      ensures forall c :: c in r <==> exists k :: k in commandes && c == EnrichOrder(commandes[k], catalog)
    {
      r := set k | k in commandes :: EnrichOrder(commandes[k], catalog);
    }
  }
}
