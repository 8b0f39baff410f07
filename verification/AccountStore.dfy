/** The development account list: it gives out the identifiers that everything else relies on. */
module AccountStore {
  import opened Bytes

  /** `details` stands for the name, type, credentials and proxy, which no code here looks at. */
  datatype Account = Account(id: int, details: string, weight: int)

  /** The position of the account with this identifier, or the length of the list. */
  function IndexOf(accounts: seq<Account>, id: int): (i: nat)
    ensures i <= |accounts|
    ensures i < |accounts| ==> accounts[i].id == id
    ensures forall k :: 0 <= k < i ==> accounts[k].id != id
    decreases |accounts|
  {
    if accounts == [] || accounts[0].id == id then 0 else 1 + IndexOf(accounts[1..], id)
  }

  ghost predicate Unique(accounts: seq<Account>) {
    forall i, j :: 0 <= i < j < |accounts| ==> accounts[i].id != accounts[j].id
  }

  ghost predicate Below(accounts: seq<Account>, nextID: int) {
    forall i :: 0 <= i < |accounts| ==> accounts[i].id < nextID
  }

  function Lookup(accounts: seq<Account>, id: int): Option<Account> {
    var i := IndexOf(accounts, id);
    if i < |accounts| then Some(accounts[i]) else None
  }

  function Updated(accounts: seq<Account>, id: int, a: Account): seq<Account> {
    var i := IndexOf(accounts, id);
    if i < |accounts| then accounts[i := a.(id := id)] else accounts
  }

  function Deleted(accounts: seq<Account>, id: int): seq<Account> {
    var i := IndexOf(accounts, id);
    if i < |accounts| then accounts[..i] + accounts[i + 1..] else accounts
  }

  class AccountStore {
    var accounts: seq<Account>
    var nextID: int

    /** No two accounts share an identifier, and the next one is new. */
    ghost predicate Valid()
      reads this
    {
      Unique(accounts) && Below(accounts, nextID)
    }

    /** Starts from the accounts found in the file. */
    constructor (loaded: seq<Account>)
      ensures accounts == loaded && nextID >= 1 && Below(accounts, nextID)
      ensures nextID == 1 || exists i :: 0 <= i < |loaded| && loaded[i].id == nextID - 1
      ensures Valid() <==> Unique(loaded)
    {
      accounts, nextID := loaded, 1;
      new;
      for i := 0 to |loaded|
        invariant accounts == loaded && nextID >= 1 && Below(loaded[..i], nextID)
        invariant nextID == 1 || exists k :: 0 <= k < i && loaded[k].id == nextID - 1
      {
        if loaded[i].id >= nextID {
          nextID := loaded[i].id + 1;
        }
      }
      assert loaded[..|loaded|] == loaded;
    }

    method List() returns (r: seq<Account>)
      ensures r == accounts
    {
      return accounts;
    }

    method Get(id: int) returns (r: Option<Account>)
      ensures r == Lookup(accounts, id)
    {
      for i := 0 to |accounts|
        invariant i <= IndexOf(accounts, id)
      {
        if accounts[i].id == id {
          return Some(accounts[i]);
        }
      }
      return None;
    }

    method First() returns (r: Option<Account>)
      ensures r == if accounts == [] then None else Some(accounts[0])
    {
      return if |accounts| == 0 then None else Some(accounts[0]);
    }

    method Create(a: Account) returns (r: Account)
      modifies this
      ensures r == a.(id := old(nextID)) && accounts == old(accounts) + [r] && nextID == old(nextID) + 1
      ensures old(Valid()) ==> Valid()
    {
      r := a.(id := nextID);
      nextID := nextID + 1;
      accounts := accounts + [r];
    }

    method Update(id: int, a: Account) returns (r: Option<Account>)
      modifies this`accounts
      ensures accounts == Updated(old(accounts), id, a)
      ensures r == if Lookup(old(accounts), id).Some? then Some(a.(id := id)) else None
      ensures old(Valid()) ==> Valid()
    {
      UpdateKeeps(accounts, nextID, id, a);
      for i := 0 to |accounts|
        invariant i <= IndexOf(accounts, id) && accounts == old(accounts)
      {
        if accounts[i].id == id {
          accounts := accounts[i := a.(id := id)];
          return Some(a.(id := id));
        }
      }
      return None;
    }

    method Delete(id: int) returns (found: bool)
      modifies this`accounts
      ensures accounts == Deleted(old(accounts), id)
      ensures found <==> Lookup(old(accounts), id).Some?
      ensures old(Valid()) ==> Valid()
    {
      DeleteKeeps(accounts, nextID, id);
      for i := 0 to |accounts|
        invariant i <= IndexOf(accounts, id) && accounts == old(accounts)
      {
        if accounts[i].id == id {
          accounts := accounts[..i] + accounts[i + 1..];
          return true;
        }
      }
      return false;
    }
  }

  lemma UpdateKeeps(accounts: seq<Account>, nextID: int, id: int, a: Account)
    ensures Unique(accounts) ==> Unique(Updated(accounts, id, a))
    ensures Below(accounts, nextID) ==> Below(Updated(accounts, id, a), nextID)
  {
  }

  lemma DeleteKeeps(accounts: seq<Account>, nextID: int, id: int)
    ensures Unique(accounts) ==> Unique(Deleted(accounts, id))
    ensures Below(accounts, nextID) ==> Below(Deleted(accounts, id), nextID)
  {
    var i := IndexOf(accounts, id);
    var r := Deleted(accounts, id);
    if i < |accounts| {
      assert forall k :: 0 <= k < |r| ==> r[k] == accounts[if k < i then k else k + 1];
    }
  }

  /** The first account with the identifier is what is found, and nothing if there is none. */
  lemma LookupIs(accounts: seq<Account>, id: int, k: nat)
    requires k <= |accounts| && forall m :: 0 <= m < k ==> accounts[m].id != id
    requires k < |accounts| ==> accounts[k].id == id
    ensures Lookup(accounts, id) == if k < |accounts| then Some(accounts[k]) else None
  {
    var i := IndexOf(accounts, id);
    if i < k {
      assert false;
    }
  }

  lemma UpdateTouchesOne(accounts: seq<Account>, id: int, a: Account, other: int)
    requires other != id
    ensures Lookup(Updated(accounts, id, a), other) == Lookup(accounts, other)
  {
    LookupIs(Updated(accounts, id, a), other, IndexOf(accounts, other));
  }

  lemma DeleteTouchesOne(accounts: seq<Account>, id: int, other: int)
    requires other != id
    ensures Lookup(Deleted(accounts, id), other) == Lookup(accounts, other)
  {
    var i, k, r := IndexOf(accounts, id), IndexOf(accounts, other), Deleted(accounts, id);
    if i < |accounts| {
      assert forall m :: 0 <= m < |r| ==> r[m] == accounts[if m < i then m else m + 1];
      LookupIs(r, other, if k < i then k else k - 1);
    }
  }

  /** Update and Delete change what is found under their own identifier and under no other, even in
      a list where identifiers are not unique. */
  lemma EditsTouchOne(accounts: seq<Account>, id: int, a: Account, other: int)
    requires other != id
    ensures Lookup(Updated(accounts, id, a), other) == Lookup(accounts, other)
    ensures Lookup(Deleted(accounts, id), other) == Lookup(accounts, other)
  {
    UpdateTouchesOne(accounts, id, a, other);
    DeleteTouchesOne(accounts, id, other);
  }

  ghost predicate Repeated(accounts: seq<Account>, id: int) {
    exists i, j :: 0 <= i < j < |accounts| && accounts[i].id == id && accounts[j].id == id
  }

  /** Delete removes the first account with the identifier: it finds none afterwards exactly when the
      identifier was not repeated, which uniqueness rules out. */
  lemma DeleteLeavesNone(accounts: seq<Account>, id: int)
    ensures Lookup(Deleted(accounts, id), id).None? <==> !Repeated(accounts, id)
    ensures Unique(accounts) ==> !Repeated(accounts, id)
  {
    var i, r := IndexOf(accounts, id), Deleted(accounts, id);
    if i < |accounts| {
      var k := IndexOf(r, id);
      assert forall m :: 0 <= m < i ==> r[m] == accounts[m];
      if k < |r| {
        assert k >= i && accounts[k + 1].id == id;
      }
      if Repeated(accounts, id) {
        var m, n :| 0 <= m < n < |accounts| && accounts[m].id == id && accounts[n].id == id;
        assert n > i && r[n - 1].id == id;
      }
    }
  }

  /** Update keeps every place in the list, and Delete the order of the others. */
  lemma {:induction false} EditsKeepOrder(accounts: seq<Account>, id: int, a: Account)
    requires Lookup(accounts, id).Some?
    ensures var i, updated, deleted := IndexOf(accounts, id), Updated(accounts, id, a), Deleted(accounts, id);
            && |updated| == |accounts| && updated[i] == a.(id := id)
            && (forall k :: 0 <= k < |accounts| && k != i ==> updated[k] == accounts[k])
            && |deleted| == |accounts| - 1
            && (forall k :: 0 <= k < |deleted| ==> deleted[k] == accounts[if k < i then k else k + 1])
  {
  }

  /** Without the identifier in the list, neither changes anything. */
  lemma EditsNeedTheirAccount(accounts: seq<Account>, id: int, a: Account)
    requires Lookup(accounts, id).None?
    ensures Updated(accounts, id, a) == accounts && Deleted(accounts, id) == accounts
  {
  }

  /** Update finds what it put there. */
  lemma UpdateFindsIts(accounts: seq<Account>, id: int, a: Account)
    requires Lookup(accounts, id).Some?
    ensures Lookup(Updated(accounts, id, a), id) == Some(a.(id := id))
  {
    var i, r := IndexOf(accounts, id), Updated(accounts, id, a);
    assert r[i].id == id;
    assert forall m :: 0 <= m < i ==> r[m] == accounts[m];
    assert IndexOf(r, id) == i;
  }

  // ---- Whole histories ----

  datatype Edit = Create(account: Account) | Update(id: int, account: Account) | Delete(id: int)

  datatype Contents = Contents(accounts: seq<Account>, nextID: int)

  function Apply(s: Contents, edit: Edit): Contents {
    match edit
    case Create(a) => Contents(s.accounts + [a.(id := s.nextID)], s.nextID + 1)
    case Update(id, a) => s.(accounts := Updated(s.accounts, id, a))
    case Delete(id) => s.(accounts := Deleted(s.accounts, id))
  }

  function ApplyAll(s: Contents, edits: seq<Edit>): Contents {
    if edits == [] then s else Apply(ApplyAll(s, edits[..|edits| - 1]), edits[|edits| - 1])
  }

  lemma ApplyKeeps(s: Contents, edit: Edit, id: int)
    requires Unique(s.accounts) && Below(s.accounts, s.nextID)
    requires id < s.nextID && Lookup(s.accounts, id).None?
    ensures var r := Apply(s, edit);
            && Unique(r.accounts) && Below(r.accounts, r.nextID) && Lookup(r.accounts, id).None?
            && s.nextID <= r.nextID <= s.nextID + 1
  {
    match edit
    case Create(a) =>
    case Update(x, a) =>
      UpdateKeeps(s.accounts, s.nextID, x, a);
      if x != id {
        UpdateTouchesOne(s.accounts, x, a, id);
      }
    case Delete(x) =>
      DeleteKeeps(s.accounts, s.nextID, x);
      if x == id {
        DeleteLeavesNone(s.accounts, x);
      } else {
        DeleteTouchesOne(s.accounts, x, id);
      }
  }

  /** An identifier that was given out and is no longer listed never names an account again, so
      what is remembered about an identifier can never be applied to a different account. An edit
      gives out at most one, so a 64-bit identifier overflows only after as many edits as are left. */
  lemma {:induction false} NeverReissued(s: Contents, edits: seq<Edit>, id: int)
    requires Unique(s.accounts) && Below(s.accounts, s.nextID)
    requires id < s.nextID && Lookup(s.accounts, id).None?
    ensures var r := ApplyAll(s, edits);
            && Unique(r.accounts) && Below(r.accounts, r.nextID) && Lookup(r.accounts, id).None?
            && s.nextID <= r.nextID <= s.nextID + |edits|
  {
    if edits != [] {
      NeverReissued(s, edits[..|edits| - 1], id);
      ApplyKeeps(ApplyAll(s, edits[..|edits| - 1]), edits[|edits| - 1], id);
    }
  }
}
