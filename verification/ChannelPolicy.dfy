/**
 The channel policy of a worker: extra senders are appended to the group and
 direct-message allowlists, and then the denied ones removed.
 */
module ChannelPolicy {

  datatype Policy = Policy(groupAllowExtra: seq<string>, groupDenyExtra: seq<string>,
                           dmAllowExtra: seq<string>, dmDenyExtra: seq<string>)

  /** The direct-message part of a channel configuration. */
  class DmConfig {
    var allowFrom: seq<string>
  }

  class MatrixConfig {
    var groupAllowFrom: seq<string>
    var dm: DmConfig?
  }

  // ---------------------------------------------------------------- the lists

  /** A short name means a user of the policy's domain. */
  function ResolveID(s: string, domain: string): string {
    if s != "" && s[0] == '@' then s else "@" + s + ":" + domain
  }

  /** One of the names means this user: it is its full id, or the short name of a user of the domain. */
  ghost predicate Named(names: seq<string>, domain: string, id: string) {
    exists name :: name in names
                   && if "@" <= name then id == name else id == "@" + name + ":" + domain
  }

  lemma ResolvedAreNamed(names: seq<string>, domain: string, id: string)
    ensures id in Resolved(names, domain) <==> Named(names, domain, id)
  {
    forall name | name in names
      ensures ResolveID(name, domain) == if "@" <= name then name else "@" + name + ":" + domain
    {
    }
  }

  function Resolved(names: seq<string>, domain: string): set<string> {
    set name | name in names :: ResolveID(name, domain)
  }

  function Allowed(list: seq<string>, extra: seq<string>, domain: string): seq<string> {
    if extra == [] then list
    else
      var before := Allowed(list, extra[..|extra| - 1], domain);
      var id := ResolveID(extra[|extra| - 1], domain);
      if id in before then before else before + [id]
  }

  function Denied(list: seq<string>, deny: set<string>): seq<string> {
    if list == [] then []
    else
      var before := Denied(list[..|list| - 1], deny);
      var id := list[|list| - 1];
      if id in deny then before else before + [id]
  }

  function Final(list: seq<string>, allow: seq<string>, deny: seq<string>, domain: string): seq<string> {
    Denied(Allowed(list, allow, domain), Resolved(deny, domain))
  }

  method AddAll(list: seq<string>, extra: seq<string>, domain: string) returns (existing: seq<string>)
    ensures existing == Allowed(list, extra, domain)
  {
    existing := list;
    for i := 0 to |extra|
      invariant existing == Allowed(list, extra[..i], domain)
    {
      assert extra[..i + 1][..i] == extra[..i];
      var id := ResolveID(extra[i], domain);
      if id !in existing {
        existing := existing + [id];
      }
    }
    assert extra[..|extra|] == extra;
  }

  method RemoveAll(list: seq<string>, extra: seq<string>, domain: string) returns (filtered: seq<string>)
    ensures filtered == Denied(list, Resolved(extra, domain))
  {
    var denySet: set<string> := {};
    for i := 0 to |extra|
      invariant denySet == Resolved(extra[..i], domain)
    {
      assert extra[..i + 1] == extra[..i] + [extra[i]];
      denySet := denySet + {ResolveID(extra[i], domain)};
    }
    assert extra[..|extra|] == extra;
    filtered := [];
    for i := 0 to |list|
      invariant filtered == Denied(list[..i], denySet)
    {
      assert list[..i + 1][..i] == list[..i];
      if list[i] !in denySet {
        filtered := filtered + [list[i]];
      }
    }
    assert list[..|list|] == list;
  }

  method ApplyChannelPolicy(matrixCfg: MatrixConfig?, policy: Policy, domain: string)
    modifies matrixCfg, if matrixCfg == null then null else matrixCfg.dm
    ensures matrixCfg != null ==>
              && matrixCfg.dm == old(matrixCfg.dm)
              && matrixCfg.groupAllowFrom
              == Final(old(matrixCfg.groupAllowFrom), policy.groupAllowExtra, policy.groupDenyExtra, domain)
    ensures matrixCfg != null && matrixCfg.dm != null ==>
              matrixCfg.dm.allowFrom
              == Final(old(matrixCfg.dm.allowFrom), policy.dmAllowExtra, policy.dmDenyExtra, domain)
    ensures matrixCfg != null ==>
              forall id :: id in matrixCfg.groupAllowFrom <==>
                && (id in old(matrixCfg.groupAllowFrom) || Named(policy.groupAllowExtra, domain, id))
                && !Named(policy.groupDenyExtra, domain, id)
    ensures matrixCfg != null && matrixCfg.dm != null ==>
              forall id :: id in matrixCfg.dm.allowFrom <==>
                && (id in old(matrixCfg.dm.allowFrom) || Named(policy.dmAllowExtra, domain, id))
                && !Named(policy.dmDenyExtra, domain, id)
  {
    if matrixCfg == null {
      return;
    }
    var dm := matrixCfg.dm;
    if |policy.groupAllowExtra| > 0 {
      matrixCfg.groupAllowFrom := AddAll(matrixCfg.groupAllowFrom, policy.groupAllowExtra, domain);
    }
    if |policy.dmAllowExtra| > 0 {
      if dm != null {
        dm.allowFrom := AddAll(dm.allowFrom, policy.dmAllowExtra, domain);
      }
    }
    if |policy.groupDenyExtra| > 0 {
      matrixCfg.groupAllowFrom := RemoveAll(matrixCfg.groupAllowFrom, policy.groupDenyExtra, domain);
    } else {
      DeniedNone(matrixCfg.groupAllowFrom);
      assert Resolved(policy.groupDenyExtra, domain) == {};
    }
    if |policy.dmDenyExtra| > 0 {
      if dm != null {
        dm.allowFrom := RemoveAll(dm.allowFrom, policy.dmDenyExtra, domain);
      }
    } else if dm != null {
      DeniedNone(dm.allowFrom);
      assert Resolved(policy.dmDenyExtra, domain) == {};
    }
    FinalMembers(old(matrixCfg.groupAllowFrom), policy.groupAllowExtra, policy.groupDenyExtra, domain);
    if dm != null {
      FinalMembers(old(dm.allowFrom), policy.dmAllowExtra, policy.dmDenyExtra, domain);
    }
  }

  /** Who is on a final list, by the names of the policy. */
  lemma FinalMembers(list: seq<string>, allow: seq<string>, deny: seq<string>, domain: string)
    ensures forall id :: id in Final(list, allow, deny, domain) <==>
              (id in list || Named(allow, domain, id)) && !Named(deny, domain, id)
  {
    forall id
      ensures id in Final(list, allow, deny, domain)
         <==> (id in list || Named(allow, domain, id)) && !Named(deny, domain, id)
    {
      PolicyAsSets(list, allow, deny, domain, id);
      ResolvedAreNamed(allow, domain, id);
      ResolvedAreNamed(deny, domain, id);
    }
  }

  lemma {:induction false} DeniedNone(list: seq<string>)
    ensures Denied(list, {}) == list
  {
    if list != [] {
      DeniedNone(list[..|list| - 1]);
      assert list == list[..|list| - 1] + [list[|list| - 1]];
    }
  }

  // ------------------------------------------------------------- the algebra

  lemma {:induction false} DeniedAppend(a: seq<string>, b: seq<string>, deny: set<string>)
    ensures Denied(a + b, deny) == Denied(a, deny) + Denied(b, deny)
  {
    if b == [] {
      assert a + b == a;
    } else {
      var n := |b| - 1;
      assert (a + b)[..|a + b| - 1] == a + b[..n];
      DeniedAppend(a, b[..n], deny);
    }
  }

  /** How often an element is kept: as often as before, or never when it is denied. */
  lemma {:induction false} DeniedCounts(list: seq<string>, deny: set<string>, id: string)
    ensures multiset(Denied(list, deny))[id] == if id in deny then 0 else multiset(list)[id]
  {
    if list != [] {
      DeniedCounts(list[..|list| - 1], deny, id);
      assert list == list[..|list| - 1] + [list[|list| - 1]];
    }
  }

  /** The appended part of an allowlist. */
  function Appended(list: seq<string>, extra: seq<string>, domain: string): seq<string>
    requires |list| <= |Allowed(list, extra, domain)|
  {
    Allowed(list, extra, domain)[|list|..]
  }

  /** Allowing keeps the list in front and appends each missing id once. */
  lemma {:induction false} AllowedShape(list: seq<string>, extra: seq<string>, domain: string)
    ensures |list| <= |Allowed(list, extra, domain)|
    ensures Allowed(list, extra, domain) == list + Appended(list, extra, domain)
    ensures forall id :: multiset(Appended(list, extra, domain))[id]
                         == if id in Resolved(extra, domain) && id !in list then 1 else 0
  {
    if extra == [] {
      assert Appended(list, extra, domain) == [];
    } else {
      var shorter := extra[..|extra| - 1];
      AllowedShape(list, shorter, domain);
      var id := ResolveID(extra[|extra| - 1], domain);
      assert extra == shorter + [extra[|extra| - 1]];
      assert Resolved(extra, domain) == Resolved(shorter, domain) + {id};
      var before := Appended(list, shorter, domain);
      assert id in before <==> multiset(before)[id] > 0;
      if id !in Allowed(list, shorter, domain) {
        assert Appended(list, extra, domain) == before + [id];
      }
    }
  }

  // --------------------------------------------------------- the main results

  /**
   The final list is, in the old order, what of the old list is not denied, and
   then the allowed ids that were missing and are not denied, each once. So no
   id occurs more often than it did, unless it is new and occurs once.
   */
  lemma PolicyIsExact(list: seq<string>, allow: seq<string>, deny: seq<string>, domain: string)
    ensures |list| <= |Allowed(list, allow, domain)|
    ensures Final(list, allow, deny, domain)
         == Denied(list, Resolved(deny, domain)) + Denied(Appended(list, allow, domain), Resolved(deny, domain))
    ensures forall id :: multiset(Final(list, allow, deny, domain))[id]
                         == if id in Resolved(deny, domain) then 0
                            else if id in list then multiset(list)[id]
                            else if id in Resolved(allow, domain) then 1 else 0
  {
    AllowedShape(list, allow, domain);
    DeniedAppend(list, Appended(list, allow, domain), Resolved(deny, domain));
    var all := Allowed(list, allow, domain);
    forall id
      ensures multiset(Final(list, allow, deny, domain))[id]
           == if id in Resolved(deny, domain) then 0 else multiset(all)[id]
    {
      DeniedCounts(all, Resolved(deny, domain), id);
    }
    forall id
      ensures multiset(all)[id] == multiset(list)[id] + multiset(Appended(list, allow, domain))[id]
    {
      assert multiset(all) == multiset(list) + multiset(Appended(list, allow, domain));
    }
  }

  /** As sets: the base and the allowed, without the denied. */
  lemma PolicyAsSets(list: seq<string>, allow: seq<string>, deny: seq<string>, domain: string, id: string)
    ensures id in Final(list, allow, deny, domain)
       <==> (id in list || id in Resolved(allow, domain)) && id !in Resolved(deny, domain)
  {
    PolicyIsExact(list, allow, deny, domain);
    var final := Final(list, allow, deny, domain);
    assert id in final <==> multiset(final)[id] > 0;
    assert id in list <==> multiset(list)[id] > 0;
  }

  /** Two names mean one user if they are equal or one is the other's full form. */
  lemma SameUser(a: string, b: string, domain: string)
    ensures ResolveID(a, domain) == ResolveID(b, domain)
       <==> a == b || a == ResolveID(b, domain) || ResolveID(a, domain) == b
  {
    assert ("@" + a + ":" + domain)[1..|a| + 1] == a;
    assert ("@" + b + ":" + domain)[1..|b| + 1] == b;
    assert |"@" + a + ":" + domain| == |"@" + b + ":" + domain| <==> |a| == |b|;
  }

  /** A denied user stays out however it is named and whatever else allows it. */
  lemma DenialWins(list: seq<string>, allow: seq<string>, deny: seq<string>, domain: string, name: string,
                   other: string)
    requires name in deny && ResolveID(other, domain) == ResolveID(name, domain)
    ensures ResolveID(other, domain) !in Final(list, allow, deny, domain)
  {
    PolicyAsSets(list, allow, deny, domain, ResolveID(other, domain));
  }

  /** Applying the same policy again changes nothing. */
  lemma PolicyIsIdempotent(list: seq<string>, allow: seq<string>, deny: seq<string>, domain: string)
    ensures Final(Final(list, allow, deny, domain), allow, deny, domain) == Final(list, allow, deny, domain)
  {
    var once := Final(list, allow, deny, domain);
    var denied := Resolved(deny, domain);
    PolicyIsExact(once, allow, deny, domain);
    AllowedShape(once, allow, domain);
    forall id | id in once
      ensures id !in denied
    {
      PolicyAsSets(list, allow, deny, domain, id);
    }
    DeniedKeepsAll(once, denied);
    var added := Appended(once, allow, domain);
    forall id | id in added
      ensures id in denied
    {
      assert multiset(added)[id] > 0;
      PolicyAsSets(list, allow, deny, domain, id);
    }
    DeniedKeepsNone(added, denied);
  }

  lemma {:induction false} DeniedKeepsAll(list: seq<string>, deny: set<string>)
    requires forall id :: id in list ==> id !in deny
    ensures Denied(list, deny) == list
  {
    if list != [] {
      DeniedKeepsAll(list[..|list| - 1], deny);
      assert list == list[..|list| - 1] + [list[|list| - 1]];
    }
  }

  lemma {:induction false} DeniedKeepsNone(list: seq<string>, deny: set<string>)
    requires forall id :: id in list ==> id in deny
    ensures Denied(list, deny) == []
  {
    if list != [] {
      DeniedKeepsNone(list[..|list| - 1], deny);
    }
  }
}
