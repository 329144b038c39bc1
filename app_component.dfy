/**
 * The root component: it projects the stored grid document into the visible
 * bit sequence, turns a cell selection into an increment of that cell's
 * counter, writes a random document on request, and resolves a session code
 * to a role.
 */
module AppComponent {
  import opened Wrappers
  import opened Js
  import opened OrderedKeys
  import opened Store

  // ---------------------------------------------------------------------
  // State projection

  /**
   * The value published on `state$` for a snapshot of the grid document:
   * `null` for a document that does not exist, otherwise the counters
   * ordered by numeric key, each reduced with JavaScript's `% 2`.
   */
  function Project(snapshot: Option<Document>): (r: Option<seq<int>>)
    ensures r.None? <==> snapshot.None?
    ensures snapshot.Some? ==> |r.value| == |snapshot.value.Keys|
    ensures snapshot.Some? ==> forall j :: 0 <= j < |r.value| ==>
      r.value[j] == Remainder(snapshot.value[Ascending(snapshot.value.Keys)[j]], 2)
  {
    match snapshot
    case None => None
    case Some(data) =>
      var keys := Ascending(data.Keys);
      Some(seq(|keys|, j requires 0 <= j < |keys| => Remainder(data[keys[j]], 2)))
  }

  /** Entry `Rank(k)` of the projection, the place of the `Rank(k)`-th smallest key, is the counter at `k` taken `% 2`. */
  lemma ProjectAt(data: Document, k: int)
    requires k in data
    ensures Rank(data.Keys, k) < |Project(Some(data)).value|
    ensures Project(Some(data)).value[Rank(data.Keys, k)] == Remainder(data[k], 2)
  {
    AscendingAtRank(data.Keys, k);
  }

  /** With non-negative counters every visible cell is 0 or 1. */
  lemma ProjectedBits(data: Document)
    requires forall k :: k in data ==> data[k] >= 0
    ensures forall j :: 0 <= j < |Project(Some(data)).value| ==>
      Project(Some(data)).value[j] == 0 || Project(Some(data)).value[j] == 1
  {
  }

  /** The document `{0: vals[0], 1: vals[1], ...}` that the `reduce` in `onRandomizeState` builds. */
  function IndexedDocument(vals: seq<int>): (d: Document)
    ensures d.Keys == Indices(|vals|)
    ensures forall i :: 0 <= i < |vals| ==> d[i] == vals[i]
  {
    map i | 0 <= i < |vals| :: vals[i]
  }

  /** Each value taken with JavaScript's `% 2`, position by position. */
  function Parities(vals: seq<int>): (r: seq<int>)
    ensures |r| == |vals|
    ensures forall i :: 0 <= i < |vals| ==> r[i] == Remainder(vals[i], 2)
  {
    seq(|vals|, i requires 0 <= i < |vals| => Remainder(vals[i], 2))
  }

  /** Values that are already remainders of `% 2` are left alone by it. */
  lemma ParitiesOfBits(bits: seq<int>)
    requires forall i :: 0 <= i < |bits| ==> -1 <= bits[i] <= 1
    ensures Parities(bits) == bits
  {
    assert forall i :: 0 <= i < |bits| ==> Parities(bits)[i] == bits[i];
  }

  /** Projecting a document keyed `0 .. n-1` gives its values in index order, `% 2`. */
  lemma ProjectIndexed(vals: seq<int>)
    ensures Project(Some(IndexedDocument(vals))) == Some(Parities(vals))
  {
    var n := |vals|;
    var d := IndexedDocument(vals);
    AscendingIndices(n);
    var keys := Ascending(d.Keys);
    assert keys == seq(n, i => i);
    var p := Project(Some(d)).value;
    assert |p| == n;
    forall j | 0 <= j < n
      ensures p[j] == Parities(vals)[j]
    {
      assert keys[j] == j;
    }
    assert p == Parities(vals);
  }

  /** Storing a projected grid under keys `0 .. n-1` and projecting again gives the same grid. */
  lemma Reproject(data: Document)
    ensures Project(Some(IndexedDocument(Project(Some(data)).value))) == Project(Some(data))
  {
    var bits := Project(Some(data)).value;
    assert forall j :: 0 <= j < |bits| ==> -1 <= bits[j] <= 1 by {
      forall j | 0 <= j < |bits|
        ensures -1 <= bits[j] <= 1
      {
        RemainderTwo(data[Ascending(data.Keys)[j]]);
      }
    }
    ParitiesOfBits(bits);
    ProjectIndexed(bits);
  }

  // ---------------------------------------------------------------------
  // Cell mutation

  /** The stored document after `onSelect(i)`: one update incrementing field `i` by 1. */
  function OnSelect(stored: Option<Document>, i: int): (r: Option<Document>)
    ensures stored.None? <==> r.None?
    ensures stored.Some? ==> r.value.Keys == stored.value.Keys + {i}
    ensures stored.Some? ==> r.value[i] == Counter(stored.value, i) + 1
    ensures stored.Some? ==> forall k :: k in stored.value && k != i ==> r.value[k] == stored.value[k]
  {
    ApplyIncrement(stored, Increment(i, 1))
  }

  /** Two documents with the same keys that differ at most at `i` project to grids that differ at most at `Rank(i)`. */
  lemma ProjectionsAgreeOffKey(data: Document, other: Document, i: int)
    requires other.Keys == data.Keys
    requires forall k :: k in data && k != i ==> other[k] == data[k]
    ensures |Project(Some(other)).value| == |Project(Some(data)).value|
    ensures forall j :: 0 <= j < |Project(Some(data)).value| && j != Rank(data.Keys, i) ==>
      Project(Some(other)).value[j] == Project(Some(data)).value[j]
  {
    var keys := Ascending(data.Keys);
    var p := Project(Some(data)).value;
    var q := Project(Some(other)).value;
    forall j | 0 <= j < |p| && j != Rank(data.Keys, i)
      ensures q[j] == p[j]
    {
      if i in data {
        AscendingAtRank(data.Keys, i);
        AscendingDistinct(data.Keys, j, Rank(data.Keys, i));
      }
      assert keys[j] != i;
    }
  }

  /** Selecting an existing cell flips its visible bit and leaves every other visible bit as it was. */
  lemma SelectFlipsOneCell(data: Document, i: int)
    requires i in data
    ensures |Project(OnSelect(Some(data), i)).value| == |Project(Some(data)).value|
    ensures Rank(data.Keys, i) < |Project(Some(data)).value|
    ensures Project(OnSelect(Some(data), i)).value[Rank(data.Keys, i)] != Project(Some(data)).value[Rank(data.Keys, i)]
    ensures data[i] >= 0 ==>
      Project(OnSelect(Some(data), i)).value[Rank(data.Keys, i)] == 1 - Project(Some(data)).value[Rank(data.Keys, i)]
    ensures forall j :: 0 <= j < |Project(Some(data)).value| && j != Rank(data.Keys, i) ==>
      Project(OnSelect(Some(data), i)).value[j] == Project(Some(data)).value[j]
  {
    var after := OnSelect(Some(data), i).value;
    assert after.Keys == data.Keys;
    assert after[i] == data[i] + 1;
    ProjectAt(data, i);
    ProjectAt(after, i);
    RemainderTwo(data[i]);
    ProjectionsAgreeOffKey(data, after, i);
  }

  /** Selecting an index that has no field yet adds it with counter 1, so the grid grows by one visible 1. */
  lemma SelectAddsMissingCell(data: Document, i: int)
    requires i !in data
    ensures |Project(OnSelect(Some(data), i)).value| == |Project(Some(data)).value| + 1
    ensures Rank(data.Keys + {i}, i) < |Project(OnSelect(Some(data), i)).value|
    ensures Project(OnSelect(Some(data), i)).value[Rank(data.Keys + {i}, i)] == 1
  {
    var after := OnSelect(Some(data), i).value;
    assert after.Keys == data.Keys + {i};
    assert |after.Keys| == |data.Keys| + 1;
    ProjectAt(after, i);
  }

  /** The stored document after the selections `xs`, applied in order. */
  function ApplySelections(stored: Option<Document>, xs: seq<int>): (r: Option<Document>)
    ensures stored.None? <==> r.None?
    decreases |xs|
  {
    if xs == [] then stored else ApplySelections(OnSelect(stored, xs[0]), xs[1..])
  }

  /** After any sequence of selections each counter has grown by the number of times its index was selected. */
  lemma {:induction false} SelectionsCount(data: Document, xs: seq<int>)
    ensures ApplySelections(Some(data), xs).Some?
    ensures ApplySelections(Some(data), xs).value.Keys == data.Keys + (set x | x in xs)
    ensures forall k :: k in ApplySelections(Some(data), xs).value ==>
      ApplySelections(Some(data), xs).value[k] == Counter(data, k) + multiset(xs)[k]
    decreases |xs|
  {
    if xs != [] {
      var next := OnSelect(Some(data), xs[0]).value;
      SelectionsCount(next, xs[1..]);
      assert xs == [xs[0]] + xs[1..];
      assert multiset(xs) == multiset{xs[0]} + multiset(xs[1..]);
      assert (set x | x in xs) == {xs[0]} + (set x | x in xs[1..]);
    }
  }

  /** Selections commute: the stored document depends only on how often each index was selected, not on the order. */
  lemma SelectionsCommute(stored: Option<Document>, xs: seq<int>, ys: seq<int>)
    requires multiset(xs) == multiset(ys)
    ensures ApplySelections(stored, xs) == ApplySelections(stored, ys)
  {
    if stored.Some? {
      SelectionsCount(stored.value, xs);
      SelectionsCount(stored.value, ys);
      assert (set x | x in xs) == (set y | y in ys) by {
        forall x ensures x in xs <==> x in ys {
          assert x in xs <==> x in multiset(xs);
          assert x in ys <==> x in multiset(ys);
        }
      }
      var a := ApplySelections(stored, xs).value;
      var b := ApplySelections(stored, ys).value;
      assert a.Keys == b.Keys;
      assert forall k :: k in a ==> a[k] == b[k];
      assert a == b;
    }
  }

  /** After the selections `xs`, the visible bit of a cell with counter `c >= 0` is `(c + k) % 2`, `k` the number of times it was selected. */
  lemma CellBitAfterSelections(data: Document, xs: seq<int>, k: int)
    requires k in data && data[k] >= 0
    ensures k in ApplySelections(Some(data), xs).value
    ensures Remainder(ApplySelections(Some(data), xs).value[k], 2) == (data[k] + multiset(xs)[k]) % 2
  {
    SelectionsCount(data, xs);
  }

  // ---------------------------------------------------------------------
  // Bulk state

  /** The cell count `onRandomizeState` uses when called without an argument. */
  const DefaultCellCount := 1024

  /** The largest length `new Array(n)` accepts; anything else, or a negative `n`, throws a RangeError. */
  const MaxArrayLength := 0xFFFF_FFFF

  datatype RangeError = InvalidArrayLength

  /** `Math.random() > 0.5 ? 1 : 0`. */
  function Coin(x: real): (b: int)
    ensures b == 1 <==> x > 0.5
    ensures b == 0 || b == 1
  {
    if x > 0.5 then 1 else 0
  }

  /** The bits drawn for cells `0 .. len-1`, in the order `map` visits them. */
  function Draws(len: nat, random: nat -> real): (r: seq<int>)
    ensures |r| == len
    ensures forall i :: 0 <= i < len ==> r[i] == Coin(random(i))
  {
    seq(len, i requires 0 <= i < len => Coin(random(i)))
  }

  /**
   * The document `onRandomizeState(n)` writes. `random(i)` is the value the
   * `i`-th call of `Math.random` returns; `n` defaults to 1024.
   */
  function RandomizedDocument(n: Option<int>, random: nat -> real): (r: Result<Document, RangeError>)
    ensures var len := if n.Some? then n.value else DefaultCellCount;
      (r.Err? <==> len < 0 || len > MaxArrayLength) &&
      (r.Ok? ==> r.value.Keys == Indices(len))
    ensures r.Ok? ==> forall k :: k in r.value ==>
      k >= 0 && (r.value[k] == 0 || r.value[k] == 1) && (r.value[k] == 1 <==> random(k) > 0.5)
  {
    var len := if n.Some? then n.value else DefaultCellCount;
    if len < 0 || len > MaxArrayLength then Err(InvalidArrayLength)
    else
      var coins := Draws(len, random);
      var d := IndexedDocument(coins);
      assert forall k :: k in d ==> 0 <= k < len && d[k] == coins[k];
      Ok(d)
  }

  /** The stored document after `onRandomizeState(n)`: overwritten on success, untouched when `new Array(n)` throws. */
  function OnRandomizeState(stored: Option<Document>, n: Option<int>, random: nat -> real): (r: Option<Document>)
    ensures RandomizedDocument(n, random).Err? ==> r == stored
    ensures RandomizedDocument(n, random).Ok? ==> r == Some(RandomizedDocument(n, random).value)
  {
    match RandomizedDocument(n, random)
    case Err(_) => stored
    case Ok(doc) => Some(doc)
  }

  /** Whatever was stored before, randomizing then projecting shows exactly the `n` drawn bits, in order. */
  lemma RandomizeThenProject(stored: Option<Document>, n: nat, random: nat -> real)
    requires n <= MaxArrayLength
    ensures Project(OnRandomizeState(stored, Some(n), random)) == Some(Draws(n, random))
  {
    var coins := Draws(n, random);
    assert RandomizedDocument(Some(n), random) == Ok(IndexedDocument(coins));
    assert forall i :: 0 <= i < |coins| ==> -1 <= coins[i] <= 1;
    ParitiesOfBits(coins);
    ProjectIndexed(coins);
  }

  // ---------------------------------------------------------------------
  // Sessions and roles

  datatype Role = Admin | Participant | Viewer

  /** A record of the `sessions` collection; only its `isAdmin` field is read. */
  datatype SessionRecord = SessionRecord(isAdmin: Value)

  /** What the lookup `getDoc(doc(db, 'sessions', code))` comes to. */
  datatype LookupOutcome =
    | Found(record: SessionRecord)
    | Missing
    | Rejected  // `doc()` throws or `getDoc` rejects: `onStartSession` rejects in turn

  /**
   * The lookup of a session code. `sessions` maps each document's path
   * below `sessions` to its record; `readSucceeds` says whether the read
   * itself succeeds.
   */
  function Lookup(sessions: map<seq<string>, SessionRecord>, code: string, readSucceeds: bool): (r: LookupOutcome)
    ensures r.Rejected? <==> DocumentPath(code).Err? || !readSucceeds
    ensures r.Found? <==> DocumentPath(code).Ok? && readSucceeds && DocumentPath(code).value in sessions
    ensures r.Found? ==> r.record == sessions[DocumentPath(code).value]
  {
    match DocumentPath(code)
    case Err(_) => Rejected
    case Ok(path) =>
      if !readSucceeds then Rejected
      else if path in sessions then Found(sessions[path])
      else Missing
  }

  /** A code without `/` whose read succeeds finds exactly the record stored under that code. */
  lemma PlainCodeLookup(sessions: map<seq<string>, SessionRecord>, code: string)
    requires code != "" && '/' !in code
    ensures Lookup(sessions, code, true) == if [code] in sessions then Found(sessions[[code]]) else Missing
  {
    PlainCodePath(code);
  }

  /**
   * The role `onStartSession` publishes, given the outcome of the lookup
   * and whether anonymous sign-in succeeded. A rejected lookup or a failed
   * sign-in rejects the call before anything is published.
   * `data?.isAdmin || false` is truthy exactly when `isAdmin` is.
   */
  function SessionRole(lookup: LookupOutcome, signedIn: bool): (r: Option<Role>)
    ensures r == Some(Viewer) <==> lookup.Missing?
    ensures r == Some(Admin) <==> lookup.Found? && signedIn && Truthy(lookup.record.isAdmin)
    ensures r == Some(Participant) <==> lookup.Found? && signedIn && !Truthy(lookup.record.isAdmin)
    ensures r.None? <==> lookup.Rejected? || (lookup.Found? && !signedIn)
  {
    match lookup
    case Rejected => None
    case Missing => Some(Viewer)
    case Found(rec) =>
      if !signedIn then None
      else if Truthy(rec.isAdmin) then Some(Admin)
      else Some(Participant)
  }

  function Emitted(r: Option<Role>): (s: seq<Role>)
    ensures r.None? ==> s == []
    ensures r.Some? ==> s == [r.value]
  {
    match r
    case None => []
    case Some(role) => [role]
  }

  /**
   * The root component's own state. The `role$` and `state$` subjects are
   * modelled by the sequence of values pushed to them.
   */
  class App {
    var sessionId: Option<string>
    var roles: seq<Role>
    var states: seq<Option<seq<int>>>

    constructor ()
      ensures sessionId == None && roles == [] && states == []
    {
      sessionId := None;
      roles := [];
      states := [];
    }

    /** The snapshot listener of `subscribeToState`. */
    method OnStateSnapshot(snapshot: Option<Document>)
      modifies this`states
      ensures states == old(states) + [Project(snapshot)]
    {
      states := states + [Project(snapshot)];
    }

    /**
     * `onStartSession(code)`, where `sessions` is the `sessions` collection,
     * `readSucceeds` says whether `getDoc` resolves and `signedIn` whether
     * anonymous sign-in succeeds.
     */
    method OnStartSession(code: string, sessions: map<seq<string>, SessionRecord>, readSucceeds: bool, signedIn: bool)
      modifies this`sessionId, this`roles
      ensures sessionId == if Lookup(sessions, code, readSucceeds).Found? then Some(code) else old(sessionId)
      ensures roles == old(roles) + Emitted(SessionRole(Lookup(sessions, code, readSucceeds), signedIn))
    {
      var lookup := Lookup(sessions, code, readSucceeds);
      if lookup.Rejected? {
        return;
      }
      if lookup.Missing? {
        roles := roles + [Viewer];
        return;
      }
      sessionId := Some(code);
      var isAdmin := Truthy(lookup.record.isAdmin);
      if signedIn {
        roles := roles + [if isAdmin then Admin else Participant];
      }
    }

    /** `onEndSession`: publishes `viewer` and changes nothing else. */
    method OnEndSession()
      modifies this`roles
      ensures roles == old(roles) + [Viewer]
    {
      roles := roles + [Viewer];
    }

    /** `resolveParams`: a present, non-empty `key` query parameter starts a session with that code. */
    method ResolveParams(key: Option<string>, sessions: map<seq<string>, SessionRecord>, readSucceeds: bool, signedIn: bool)
      modifies this`sessionId, this`roles
      ensures key.None? || key.value == "" ==> sessionId == old(sessionId) && roles == old(roles)
      ensures key.Some? && key.value != "" ==>
        sessionId == (if Lookup(sessions, key.value, readSucceeds).Found? then Some(key.value) else old(sessionId)) &&
        roles == old(roles) + Emitted(SessionRole(Lookup(sessions, key.value, readSucceeds), signedIn))
    {
      if key.Some? && key.value != "" {
        OnStartSession(key.value, sessions, readSucceeds, signedIn);
      }
    }
  }
}
