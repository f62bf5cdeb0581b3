/** The bounded, most-recent-first generation history kept in the browser's
    key-value storage under one fixed key. */
module HistoryStore {
  import opened Types

  const StorageKey: string := "ai-studio-generations"
  const MaxHistoryItems: nat := 5

  /** The stored entry as the loader sees it: `None` when the key is absent
      or its text does not parse, `Some(list)` otherwise. */
  type Store = Option<seq<Generation>>

  predicate HasId(h: seq<Generation>, id: string) {
    exists i :: 0 <= i < |h| && h[i].id == id
  }

  predicate UniqueIds(h: seq<Generation>) {
    forall i, j :: 0 <= i < j < |h| ==> h[i].id != h[j].id
  }

  /** `a` is `b` with some elements dropped, the rest kept in order. */
  predicate Subsequence<T(==)>(a: seq<T>, b: seq<T>)
    decreases |b|
  {
    a == [] || (b != [] && ((a[0] == b[0] && Subsequence(a[1..], b[1..])) || Subsequence(a, b[1..])))
  }

  /** `history.filter(g => g.id !== id)`. */
  function WithoutId(h: seq<Generation>, id: string): (r: seq<Generation>)
    ensures |r| <= |h|
    ensures forall x :: x in r <==> x in h && x.id != id
    ensures Subsequence(r, h)
    ensures !HasId(h, id) ==> r == h
  {
    if h == [] then []
    else if h[0].id == id then
      assert HasId(h, id);
      WithoutId(h[1..], id)
    else
      assert !HasId(h, id) ==> !HasId(h[1..], id) by {
        if HasId(h[1..], id) {
          var i :| 0 <= i < |h[1..]| && h[1..][i].id == id;
          assert h[i + 1].id == id;
        }
      }
      var rest := WithoutId(h[1..], id);
      assert ([h[0]] + rest)[1..] == rest;
      [h[0]] + rest
  }

  /** The list that `saveGeneration` writes: the new entry first, every other
      entry with its id dropped, cut to the first five. */
  function Insert(h: seq<Generation>, g: Generation): (r: seq<Generation>)
    ensures 1 <= |r| <= MaxHistoryItems
    ensures r[0] == g
    ensures forall i :: 1 <= i < |r| ==> r[i].id != g.id
    ensures |r| == Min(MaxHistoryItems, 1 + |WithoutId(h, g.id)|)
    ensures r[1..] <= WithoutId(h, g.id)
    ensures Subsequence(r[1..], h)
  {
    var kept := WithoutId(h, g.id);
    var r := ([g] + kept)[..Min(MaxHistoryItems, 1 + |kept|)];
    var tail := kept[..|r| - 1];
    assert r == [g] + tail;
    assert forall i :: 1 <= i < |r| ==> r[i] == tail[i - 1] && tail[i - 1] in kept;
    SubsequencePrefix(kept, h, |r| - 1);
    r
  }

  /** `getGenerationHistory`: a missing or unreadable entry reads as empty. */
  function Load(s: Store): (h: seq<Generation>)
    ensures s.None? ==> h == []
    ensures s.Some? ==> h == s.value
  {
    s.GetOr([])
  }

  /** `saveGeneration`. `writeOk` is false when `setItem` throws (storage
      full or disabled); the error is caught and the entry stays as it was. */
  function Save(s: Store, g: Generation, writeOk: bool): (s': Store)
    ensures writeOk ==> s'.Some? && 1 <= |Load(s')| <= MaxHistoryItems && Load(s')[0] == g
    ensures !writeOk ==> s' == s
  {
    if writeOk then Some(Insert(Load(s), g)) else s
  }

  /** `clearGenerationHistory`. `removeOk` is false when `removeItem` throws;
      the error is caught and the entry stays as it was. */
  function Clear(s: Store, removeOk: bool): (s': Store)
    ensures removeOk ==> Load(s') == []
    ensures !removeOk ==> s' == s
  {
    if removeOk then None else s
  }

  /** Save a sequence of generations in order, oldest first. */
  function SaveAll(h: seq<Generation>, gs: seq<Generation>): seq<Generation>
    decreases |gs|
  {
    if gs == [] then h else Insert(SaveAll(h, gs[..|gs| - 1]), gs[|gs| - 1])
  }

  /** `s` newest-last read newest-first. */
  function Reverse<T>(s: seq<T>): seq<T> {
    seq(|s|, i requires 0 <= i < |s| => s[|s| - 1 - i])
  }

  // ---------------------------------------------------------------------
  // Lemmas

  lemma {:induction false} SubsequencePrefix<T>(a: seq<T>, b: seq<T>, k: nat)
    requires Subsequence(a, b)
    requires k <= |a|
    ensures Subsequence(a[..k], b)
    decreases |b|
  {
    if k == 0 || a == [] {
    } else if a[0] == b[0] && Subsequence(a[1..], b[1..]) {
      SubsequencePrefix(a[1..], b[1..], k - 1);
      assert a[..k][1..] == a[1..][..k - 1];
    } else {
      SubsequencePrefix(a, b[1..], k);
    }
  }

  /** Removing an id that occurs exactly once shortens the list by one. */
  lemma {:induction false} WithoutUniqueIdLength(h: seq<Generation>, id: string)
    requires UniqueIds(h)
    requires HasId(h, id)
    ensures |WithoutId(h, id)| == |h| - 1
  {
    var i :| 0 <= i < |h| && h[i].id == id;
    if h[0].id == id {
      forall j | 0 <= j < |h[1..]| ensures h[1..][j].id != id {
        assert h[1..][j] == h[j + 1];
      }
    } else {
      assert h[1..][i - 1].id == id;
      WithoutUniqueIdLength(h[1..], id);
    }
  }

  /** The filter keeps every entry whose id differs as often as it occurs,
      and no entry with the id: together with `Subsequence`, it is exactly
      `filter`, duplicates included. */
  lemma {:induction false} WithoutIdCounts(h: seq<Generation>, id: string)
    ensures forall x :: multiset(WithoutId(h, id))[x] == if x.id == id then 0 else multiset(h)[x]
  {
    if h != [] {
      WithoutIdCounts(h[1..], id);
      assert h == [h[0]] + h[1..];
      assert multiset(h) == multiset{h[0]} + multiset(h[1..]);
      if h[0].id != id {
        assert WithoutId(h, id) == [h[0]] + WithoutId(h[1..], id);
        assert multiset(WithoutId(h, id)) == multiset{h[0]} + multiset(WithoutId(h[1..], id));
      }
    }
  }

  /** Ids stay pairwise distinct across a save. */
  lemma InsertPreservesUniqueIds(h: seq<Generation>, g: Generation)
    requires UniqueIds(h)
    ensures UniqueIds(Insert(h, g))
  {
    var r := Insert(h, g);
    var kept := WithoutId(h, g.id);
    SubsequenceKeepsUnique(kept, h);
    forall i, j | 0 <= i < j < |r| ensures r[i].id != r[j].id {
      if i > 0 {
        assert r[i] == kept[i - 1] && r[j] == kept[j - 1];
      }
    }
  }

  lemma {:induction false} SubsequenceKeepsUnique(a: seq<Generation>, b: seq<Generation>)
    requires Subsequence(a, b)
    requires UniqueIds(b)
    ensures UniqueIds(a)
    decreases |b|
  {
    if a == [] {
    } else if a[0] == b[0] && Subsequence(a[1..], b[1..]) {
      SubsequenceKeepsUnique(a[1..], b[1..]);
      forall j | 0 < j < |a| ensures a[0].id != a[j].id {
        SubsequenceMember(a[1..], b[1..], j - 1);
        var k :| 0 <= k < |b[1..]| && b[1..][k] == a[j];
        assert b[k + 1] == a[j];
      }
    } else {
      SubsequenceKeepsUnique(a, b[1..]);
    }
  }

  lemma {:induction false} SubsequenceMember<T>(a: seq<T>, b: seq<T>, i: nat)
    requires Subsequence(a, b)
    requires i < |a|
    ensures exists k :: 0 <= k < |b| && b[k] == a[i]
    decreases |b|
  {
    if a[0] == b[0] && Subsequence(a[1..], b[1..]) {
      if i == 0 {
        assert b[0] == a[0];
      } else {
        SubsequenceMember(a[1..], b[1..], i - 1);
        var k :| 0 <= k < |b[1..]| && b[1..][k] == a[1..][i - 1];
        assert b[k + 1] == a[i];
      }
    } else {
      SubsequenceMember(a, b[1..], i);
      var k :| 0 <= k < |b[1..]| && b[1..][k] == a[i];
      assert b[k + 1] == a[i];
    }
  }

  /** Re-saving an id that is already stored, in a list within the cap,
      leaves the length unchanged. */
  lemma InsertExistingKeepsLength(h: seq<Generation>, g: Generation)
    requires UniqueIds(h)
    requires HasId(h, g.id)
    requires |h| <= MaxHistoryItems
    ensures |Insert(h, g)| == |h|
  {
    WithoutUniqueIdLength(h, g.id);
  }

  /** A new id on a full list evicts exactly the oldest entry. */
  lemma InsertNewIntoFullEvictsLast(h: seq<Generation>, g: Generation)
    requires |h| == MaxHistoryItems
    requires !HasId(h, g.id)
    ensures Insert(h, g) == [g] + h[..MaxHistoryItems - 1]
  {
    var r := Insert(h, g);
    assert r[1..] == h[..MaxHistoryItems - 1];
    assert r == [r[0]] + r[1..];
  }

  /** Saving the same generation twice gives the same list as saving it once. */
  lemma InsertIdempotent(h: seq<Generation>, g: Generation)
    ensures Insert(Insert(h, g), g) == Insert(h, g)
  {
    var once := Insert(h, g);
    var tail := once[1..];
    assert once == [g] + tail;
    forall i | 0 <= i < |tail| ensures tail[i].id != g.id {
      assert tail[i] == once[i + 1];
    }
    WithoutIdOfCons(g, tail);
    var twice := Insert(once, g);
    assert twice[1..] == tail;
    assert twice == [twice[0]] + twice[1..];
  }

  lemma WithoutIdOfCons(g: Generation, tail: seq<Generation>)
    requires !HasId(tail, g.id)
    ensures WithoutId([g] + tail, g.id) == tail
  {
    assert ([g] + tail)[1..] == tail;
  }

  /** Saving pairwise-distinct generations one after another onto an empty
      history leaves the most recent five, newest first. */
  lemma {:induction false} SaveAllDistinctKeepsMostRecent(gs: seq<Generation>)
    requires UniqueIds(gs)
    ensures SaveAll([], gs) == Reverse(gs)[..Min(MaxHistoryItems, |gs|)]
    decreases |gs|
  {
    if gs != [] {
      var n := |gs| - 1;
      var init := gs[..n];
      assert UniqueIds(init) by {
        forall i, j | 0 <= i < j < |init| ensures init[i].id != init[j].id {
          assert init[i] == gs[i] && init[j] == gs[j];
        }
      }
      SaveAllDistinctKeepsMostRecent(init);
      InsertFreshAfterRecent(gs, SaveAll([], init));
    }
  }

  /** The induction step of the lemma above: the newest generation's id is
      not among the recent ones, so it is simply pushed onto them. */
  lemma InsertFreshAfterRecent(gs: seq<Generation>, prev: seq<Generation>)
    requires UniqueIds(gs)
    requires |gs| > 0
    requires prev == Reverse(gs[..|gs| - 1])[..Min(MaxHistoryItems, |gs| - 1)]
    ensures Insert(prev, gs[|gs| - 1]) == Reverse(gs)[..Min(MaxHistoryItems, |gs|)]
  {
    var n := |gs| - 1;
    var revInit := Reverse(gs[..n]);
    forall i | 0 <= i < |prev| ensures prev[i].id != gs[n].id {
      var j := n - 1 - i;
      assert prev[i] == revInit[i];
      assert revInit[i] == gs[..n][j];
      assert gs[..n][j] == gs[j];
      assert 0 <= j < n < |gs|;
      assert gs[j].id != gs[n].id;
    }
    PushFresh(gs, prev);
  }

  lemma PushFresh(gs: seq<Generation>, prev: seq<Generation>)
    requires |gs| > 0
    requires prev == Reverse(gs[..|gs| - 1])[..Min(MaxHistoryItems, |gs| - 1)]
    requires forall i :: 0 <= i < |prev| ==> prev[i].id != gs[|gs| - 1].id
    ensures Insert(prev, gs[|gs| - 1]) == Reverse(gs)[..Min(MaxHistoryItems, |gs|)]
  {
    var n := |gs| - 1;
    InsertFresh(prev, gs[n]);
    ReverseSnoc(gs);
    var m := Min(MaxHistoryItems, |gs|);
    assert Reverse(gs)[..m] == [gs[n]] + Reverse(gs[..n])[..m - 1];
  }

  /** Inserting an id that is not present pushes onto the front and cuts. */
  lemma InsertFresh(h: seq<Generation>, g: Generation)
    requires forall i :: 0 <= i < |h| ==> h[i].id != g.id
    ensures Insert(h, g) == [g] + h[..Min(MaxHistoryItems - 1, |h|)]
  {
    assert WithoutId(h, g.id) == h;
    var r := Insert(h, g);
    assert r == [r[0]] + r[1..];
  }

  lemma ReverseSnoc<T>(s: seq<T>)
    requires |s| > 0
    ensures Reverse(s) == [s[|s| - 1]] + Reverse(s[..|s| - 1])
  {
  }

  /** Loading after a successful save shows the saved generation first and
      never more than five entries. */
  lemma SaveThenLoad(s: Store, g: Generation)
    ensures Load(Save(s, g, true)) == Insert(Load(s), g)
    ensures Load(Save(s, g, true))[0] == g
    ensures |Load(Save(s, g, true))| <= MaxHistoryItems
  {
  }

  /** After a successful clear the history reads as empty, whatever was stored. */
  lemma ClearThenLoad(s: Store)
    ensures Load(Clear(s, true)) == []
  {
  }

  /** The store's invariant: what is stored fits the cap and has distinct ids.
      It holds of the empty store and every save and clear keeps it. */
  predicate WellFormed(s: Store) {
    |Load(s)| <= MaxHistoryItems && UniqueIds(Load(s))
  }

  lemma SaveKeepsWellFormed(s: Store, g: Generation, writeOk: bool)
    requires WellFormed(s)
    ensures WellFormed(Save(s, g, writeOk))
  {
    if writeOk {
      InsertPreservesUniqueIds(Load(s), g);
    }
  }
}
