/** The home page's display helpers: the user's initials and the roles worth
    showing. */
module Home {
  import opened Wrappers
  import opened Text
  import opened Keycloak

  /** `part[0]` turned into text by JavaScript's `+` when the other operand
      is a string: the first character, or the text "undefined" for the
      missing first character of an empty string. */
  function FirstOrUndefined(part: string): (r: string)
    ensures part != [] ==> r == [part[0]]
    ensures part == [] ==> r == "undefined"
  {
    if part == [] then "undefined" else [part[0]]
  }

  /** `a[0] + b[0]` under JavaScript's `+`: two characters join; when only
      one piece is empty, its `undefined` becomes the text "undefined" on its
      side of the other piece's first character; when
      both are empty, `undefined + undefined` is `NaN`, which has no
      `toUpperCase`, so the caller throws a TypeError (`None`). */
  function JoinFirsts(a: string, b: string): (r: Option<string>)
    ensures r.None? <==> a == [] && b == []
    ensures a != [] && b != [] ==> r == Some([a[0], b[0]])
    ensures a == [] && b != [] ==> r == Some("undefined" + [b[0]])
    ensures a != [] && b == [] ==> r == Some([a[0]] + "undefined")
  {
    if a == [] && b == [] then None
    else
      var joined := FirstOrUndefined(a) + FirstOrUndefined(b);
      assert a != [] && b != [] ==> joined == [a[0], b[0]];
      Some(joined)
  }

  /** `getUserInitials()` as written: split the name on single spaces; with two
      or more pieces, upper-case the first characters of the first two
      pieces, otherwise upper-case the first two characters of the name.
      `None` is the TypeError thrown when both of the first two pieces are
      empty. */
  function UserInitialsAsWritten(name: string): (r: Option<string>)
    ensures var parts := Split(name, ' ');
            |parts| >= 2 ==> (r.None? <==> parts[0] == [] && parts[1] == [])
    ensures var parts := Split(name, ' ');
            |parts| >= 2 && parts[0] != [] && parts[1] != [] ==>
              r == Some([UpperChar(parts[0][0]), UpperChar(parts[1][0])])
    ensures var parts := Split(name, ' ');
            |parts| >= 2 && parts[0] == [] && parts[1] != [] ==> r == Some(Upper("undefined" + [parts[1][0]]))
    ensures var parts := Split(name, ' ');
            |parts| >= 2 && parts[0] != [] && parts[1] == [] ==> r == Some(Upper([parts[0][0]] + "undefined"))
    ensures |Split(name, ' ')| < 2 ==> r == Some(Upper(Prefix(name, 2)))
  {
    var parts := Split(name, ' ');
    if |parts| >= 2 then
      match JoinFirsts(parts[0], parts[1])
      case None => None
      case Some(joined) =>
        assert |joined| == 2 ==> Upper(joined) == [UpperChar(joined[0]), UpperChar(joined[1])];
        Some(Upper(joined))
    else Some(Upper(Prefix(name, 2)))
  }

  /** A name with no space is a single piece, so its initials as written are
      its first two characters upper-cased; a name with two non-empty first
      pieces gives their upper-cased first letters. */
  lemma InitialsAsWrittenOnWords(name: string)
    ensures var parts := Split(name, ' ');
            |parts| >= 2 && parts[0] != [] && parts[1] != [] ==>
              UserInitialsAsWritten(name) == Some([UpperChar(parts[0][0]), UpperChar(parts[1][0])])
    ensures ' ' !in name ==> UserInitialsAsWritten(name) == Some(Upper(Prefix(name, 2)))
  {
    if ' ' !in name {
      SplitWithoutSeparator(name, ' ');
    }
  }

  /** Two spaces in a row make the second piece empty: the name "a  b"
      (given name "a", family name " b") yields "AUNDEFINED", not two initials. */
  lemma InitialsAsWrittenDoubleSpace(kc: Provider)
    requires kc.tokenParsed == Some(TokenClaims(None, Some("a"), Some(" b"), None, None, None))
    ensures FullName(kc) == "a  b"
    ensures UserInitialsAsWritten(FullName(kc)) == Some("AUNDEFINED")
  {
    FullNameOfSpacedFamily(kc);
    SplitDoubleSpace();
    assert Split(FullName(kc), ' ') == ["a", "", "b"];
    assert FirstOrUndefined("a") == "a" && "a" + "undefined" == "aundefined";
    UpperUndefined();
  }

  /** A name that is a single space splits into two empty pieces, so the
      initials as written throw: a `preferred_username` of " " with no given
      or family name makes `getFullName()` return " ". */
  lemma InitialsAsWrittenBlankName(kc: Provider)
    requires kc.tokenParsed == Some(TokenClaims(Some(" "), None, None, None, None, None))
    ensures FullName(kc) == " "
    ensures UserInitialsAsWritten(FullName(kc)).None?
  {
    FullNameOfBlankUsername(kc);
    SplitSingleSpace();
  }

  lemma FullNameOfBlankUsername(kc: Provider)
    requires kc.tokenParsed == Some(TokenClaims(Some(" "), None, None, None, None, None))
    ensures FullName(kc) == " "
  {
    var t := kc.tokenParsed.value;
    var raw := OrElse(t.givenName, "") + " " + OrElse(t.familyName, "");
    assert raw == " ";
    assert IsJsWhitespace(' ');
    assert GivenFamily(t) == "";
  }

  lemma SplitSingleSpace()
    ensures Split(" ", ' ') == ["", ""]
  {
    assert " "[1..] == "";
    assert Split("", ' ') == [""];
  }

  lemma FullNameOfSpacedFamily(kc: Provider)
    requires kc.tokenParsed == Some(TokenClaims(None, Some("a"), Some(" b"), None, None, None))
    ensures FullName(kc) == "a  b"
  {
    var raw := "a" + " " + " b";
    assert raw == "a  b";
    assert raw[0] == 'a' && raw[|raw| - 1] == 'b';
    assert !IsJsWhitespace('a') && !IsJsWhitespace('b');
    assert TrimStart(raw, IsJsWhitespace) == raw;
    assert TrimEnd(raw, IsJsWhitespace) == raw;
    assert Trim(raw, IsJsWhitespace) == raw;
    assert GivenFamily(kc.tokenParsed.value) == raw;
  }

  lemma SplitDoubleSpace()
    ensures Split("a  b", ' ') == ["a", "", "b"]
  {
    assert Split("b", ' ') == ["b"] by { SplitWithoutSeparator("b", ' '); }
    assert " b"[1..] == "b";
    assert Split(" b", ' ') == ["", "b"];
    assert "  b"[1..] == " b";
    assert Split("  b", ' ') == ["", "", "b"];
    assert "a  b"[1..] == "  b";
    assert Split("a  b", ' ') == [['a'] + ""] + ["", "b"];
    assert ['a'] + "" == "a";
  }

  lemma UpperUndefined()
    ensures Upper("aundefined") == "AUNDEFINED"
  {
    var u := Upper("aundefined");
    assert u[0] == 'A' && u[1] == 'U' && u[2] == 'N' && u[3] == 'D' && u[4] == 'E';
    assert u[5] == 'F' && u[6] == 'I' && u[7] == 'N' && u[8] == 'E' && u[9] == 'D';
  }

  /** The pieces of the name that are words (not empty). */
  function Words(name: string): (w: seq<string>)
    ensures forall i :: 0 <= i < |w| ==> w[i] != [] && ' ' !in w[i]
  {
    SplitJoin(name, ' ');
    NonEmpty(Split(name, ' '))
  }

  /** The non-empty strings of `parts`, in order. */
  function NonEmpty(parts: seq<string>): (r: seq<string>)
    ensures forall i :: 0 <= i < |r| ==> r[i] != [] && r[i] in parts
  {
    if parts == [] then []
    else if parts[0] == [] then NonEmpty(parts[1..])
    else [parts[0]] + NonEmpty(parts[1..])
  }

  /** Every character of every piece of a split occurs in the split string. */
  lemma {:induction false} SplitCharsFromString(s: string, sep: char)
    ensures forall i, k :: 0 <= i < |Split(s, sep)| && 0 <= k < |Split(s, sep)[i]| ==> Split(s, sep)[i][k] in s
    decreases |s|
  {
    if s != [] {
      SplitCharsFromString(s[1..], sep);
      var rest := Split(s[1..], sep);
      var parts := Split(s, sep);
      forall i, k | 0 <= i < |parts| && 0 <= k < |parts[i]| ensures parts[i][k] in s {
        if s[0] == sep {
          if i > 0 { assert parts[i] == rest[i - 1]; assert rest[i - 1][k] in s[1..]; }
        } else if i == 0 {
          if k > 0 { assert parts[0][k] == rest[0][k - 1]; assert rest[0][k - 1] in s[1..]; }
        } else {
          assert parts[i] == rest[i]; assert rest[i][k] in s[1..];
        }
      }
    }
  }

  /** `getUserInitials()` as evidently intended: the upper-cased first letters
      of the first two words, or else the first two characters upper-cased. */
  function UserInitials(name: string): (r: string)
    ensures |r| <= 2
    ensures |Words(name)| >= 2 ==> |r| == 2
    ensures |Words(name)| < 2 ==> r == Upper(Prefix(name, 2))
  {
    var words := Words(name);
    if |words| >= 2 then Upper([words[0][0], words[1][0]]) else Upper(Prefix(name, 2))
  }

  /** The intended initials are at most two characters, each an upper-cased
      character of the name; with two words neither is a space. */
  lemma InitialsAreShort(name: string)
    ensures |UserInitials(name)| <= 2
    ensures forall k :: 0 <= k < |UserInitials(name)| ==>
              exists j :: 0 <= j < |name| && UserInitials(name)[k] == UpperChar(name[j])
    ensures |Words(name)| >= 2 ==> ' ' !in UserInitials(name)
  {
    var words := Words(name);
    var r := UserInitials(name);
    if |words| >= 2 {
      SplitCharsFromString(name, ' ');
      var a :| 0 <= a < |Split(name, ' ')| && Split(name, ' ')[a] == words[0];
      var b :| 0 <= b < |Split(name, ' ')| && Split(name, ' ')[b] == words[1];
      assert words[0][0] in name && words[1][0] in name;
      var j0 :| 0 <= j0 < |name| && name[j0] == words[0][0];
      var j1 :| 0 <= j1 < |name| && name[j1] == words[1][0];
      assert r[0] == UpperChar(name[j0]) && r[1] == UpperChar(name[j1]);
    } else {
      forall k | 0 <= k < |r| ensures exists j :: 0 <= j < |name| && r[k] == UpperChar(name[j]) {
        assert r[k] == UpperChar(name[k]);
      }
    }
  }

  /** On names whose first two pieces are words, the intended initials and
      the initials as written agree. */
  lemma InitialsAgreeOnWords(name: string)
    requires |Split(name, ' ')| >= 2 && Split(name, ' ')[0] != [] && Split(name, ' ')[1] != []
    ensures UserInitialsAsWritten(name) == Some(UserInitials(name))
  {
    var parts := Split(name, ' ');
    assert parts == [parts[0]] + [parts[1]] + parts[2..];
    assert NonEmpty(parts)[..2] == [parts[0], parts[1]] by {
      assert NonEmpty(parts) == [parts[0]] + NonEmpty(parts[1..]);
      assert NonEmpty(parts[1..]) == [parts[1]] + NonEmpty(parts[2..]);
    }
    InitialsAsWrittenOnWords(name);
  }

  /** A role shown to the user: not a `default-roles-` role and not mentioning
      `offline_access` or `uma_authorization`. */
  predicate IsDisplayRole(role: string) {
    !StartsWith(role, "default-roles-") && !Contains(role, "offline_access") && !Contains(role, "uma_authorization")
  }

  /** `a` is `b` with some elements left out, order kept. */
  predicate Subsequence(a: seq<string>, b: seq<string>)
    decreases |b|
  {
    a == [] || (b != [] && (if a[0] == b[0] then Subsequence(a[1..], b[1..]) else Subsequence(a, b[1..])))
  }

  /** The filter of `getDisplayRoles()`: exactly the display roles of `roles`,
      in their order. */
  function DisplayRoles(roles: seq<string>): (r: seq<string>)
    ensures forall x :: x in r <==> x in roles && IsDisplayRole(x)
    ensures Subsequence(r, roles)
    ensures |r| <= |roles|
    ensures forall x :: multiset(r)[x] == if IsDisplayRole(x) then multiset(roles)[x] else 0
  {
    if roles == [] then []
    else
      var rest := DisplayRoles(roles[1..]);
      assert roles == [roles[0]] + roles[1..];
      if IsDisplayRole(roles[0]) then [roles[0]] + rest
      else
        assert rest == [] || rest[0] != roles[0];
        rest
  }

  /** `getDisplayRoles()`: the session's roles with the identity provider's
      internal ones removed. */
  function GetDisplayRoles(kc: Provider): (r: seq<string>)
    ensures forall x :: x in r <==> HasRole(kc, x) && IsDisplayRole(x)
    ensures Subsequence(r, Roles(kc))
    ensures kc.tokenParsed.None? ==> r == []
  {
    DisplayRoles(Roles(kc))
  }

  /** Filtering the displayed roles again changes nothing. */
  lemma {:induction false} DisplayRolesIdempotent(roles: seq<string>)
    ensures DisplayRoles(DisplayRoles(roles)) == DisplayRoles(roles)
  {
    if roles != [] {
      DisplayRolesIdempotent(roles[1..]);
    }
  }
}
