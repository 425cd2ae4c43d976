/**
 * The recently-viewed list: a most-recently-used list of pages, keyed by
 * (type, id), kept in one browser storage slot and capped at 50 entries.
 */
module History {
  import opened Wrappers

  /** Which kind of page was viewed. */
  datatype HistoryType = Edit | ResultPage

  datatype ViewHistory = ViewHistory(kind: HistoryType, id: string, title: string, timestamp: int, path: string)

  /** The most entries a saved list keeps. */
  const MaxHistoryItems: nat := 50

  /** `h` is the page (kind, id). */
  predicate HasKey(h: ViewHistory, kind: HistoryType, id: string)
  {
    h.kind == kind && h.id == id
  }

  /** `a` is `b` with some entries dropped, the rest in their order. */
  predicate IsSubsequence(a: seq<ViewHistory>, b: seq<ViewHistory>)
    decreases |b|
  {
    if a == [] then true
    else if b == [] then false
    else if a[0] == b[0] then IsSubsequence(a[1..], b[1..])
    else IsSubsequence(a, b[1..])
  }

  /** No two entries are the same page. */
  predicate KeysDistinct(list: seq<ViewHistory>)
  {
    forall i, j :: 0 <= i < j < |list| ==> !HasKey(list[j], list[i].kind, list[i].id)
  }

  /**
   * history.filter(h => !(h.type === kind && h.id === id)): every entry of
   * another page, as often as before, and none of page (kind, id).
   */
  function Without(list: seq<ViewHistory>, kind: HistoryType, id: string): (r: seq<ViewHistory>)
    ensures |r| <= |list|
    ensures forall x :: x in r <==> x in list && !HasKey(x, kind, id)
  {
    if list == [] then []
    else
      var rest := Without(list[1..], kind, id);
      assert list == [list[0]] + list[1..];
      if HasKey(list[0], kind, id) then rest else [list[0]] + rest
  }

  /**
   * history.slice(0, MAX_HISTORY_ITEMS): the first 50 entries, the newest
   * ones, and the whole list when it is shorter.
   */
  function Limited(list: seq<ViewHistory>): (r: seq<ViewHistory>)
    ensures |r| <= MaxHistoryItems
    ensures r <= list
    ensures |list| <= MaxHistoryItems ==> r == list
    ensures |list| > MaxHistoryItems ==> |r| == MaxHistoryItems
  {
    if |list| <= MaxHistoryItems then list else list[..MaxHistoryItems]
  }

  /**
   * The list addViewHistory saves: `h` first, then the previous entries of
   * other pages in their previous order, cut to 50.
   */
  function Added(list: seq<ViewHistory>, h: ViewHistory): (r: seq<ViewHistory>)
    ensures |r| >= 1 && r[0] == h
    ensures |r| <= MaxHistoryItems
    ensures r[1..] <= Without(list, h.kind, h.id)
    ensures forall i :: 0 < i < |r| ==> !HasKey(r[i], h.kind, h.id)
    ensures |r| == if |Without(list, h.kind, h.id)| < MaxHistoryItems then |Without(list, h.kind, h.id)| + 1 else MaxHistoryItems
  {
    var rest := Without(list, h.kind, h.id);
    var r := Limited([h] + rest);
    forall i | 0 < i < |r|
      ensures !HasKey(r[i], h.kind, h.id)
    {
      assert r[i] == rest[i - 1];
    }
    r
  }

  /** Filtering keeps every entry of another page as often as it occurred, and none of page (kind, id). */
  lemma {:induction false} WithoutCounts(list: seq<ViewHistory>, kind: HistoryType, id: string)
    ensures forall x :: multiset(Without(list, kind, id))[x] == if HasKey(x, kind, id) then 0 else multiset(list)[x]
  {
    if list != [] {
      WithoutCounts(list[1..], kind, id);
      assert list == [list[0]] + list[1..];
      assert multiset(list) == multiset{list[0]} + multiset(list[1..]);
    }
  }

  /** What filtering leaves is a subsequence of the list. */
  lemma {:induction false} WithoutIsSubsequence(list: seq<ViewHistory>, kind: HistoryType, id: string)
    ensures IsSubsequence(Without(list, kind, id), list)
  {
    if list != [] {
      WithoutIsSubsequence(list[1..], kind, id);
      if !HasKey(list[0], kind, id) {
        assert ([list[0]] + Without(list[1..], kind, id))[1..] == Without(list[1..], kind, id);
      } else {
        SubsequenceOfTail(Without(list[1..], kind, id), list);
      }
    }
  }

  /** A subsequence of the tail is a subsequence of the list. */
  lemma {:induction false} SubsequenceOfTail(a: seq<ViewHistory>, b: seq<ViewHistory>)
    requires b != [] && IsSubsequence(a, b[1..])
    ensures IsSubsequence(a, b)
    decreases |b|, 1
  {
    if a != [] && a[0] == b[0] {
      SubsequenceHead(a, b[1..]);
    }
  }

  /** Dropping the head of a subsequence leaves a subsequence. */
  lemma {:induction false} SubsequenceHead(a: seq<ViewHistory>, b: seq<ViewHistory>)
    requires a != [] && IsSubsequence(a, b)
    ensures IsSubsequence(a[1..], b)
    decreases |b|, 2
  {
    if a[0] != b[0] {
      SubsequenceHead(a, b[1..]);
    }
    SubsequenceOfTail(a[1..], b);
  }

  /** Filtering a page out twice is filtering it out once. */
  lemma {:induction false} WithoutIdempotent(list: seq<ViewHistory>, kind: HistoryType, id: string)
    ensures Without(Without(list, kind, id), kind, id) == Without(list, kind, id)
  {
    if list != [] {
      WithoutIdempotent(list[1..], kind, id);
      var rest := Without(list[1..], kind, id);
      if !HasKey(list[0], kind, id) {
        assert ([list[0]] + rest)[1..] == rest;
      }
    }
  }

  /** Filtering a list without the page changes nothing. */
  lemma {:induction false} WithoutAbsent(list: seq<ViewHistory>, kind: HistoryType, id: string)
    requires forall i :: 0 <= i < |list| ==> !HasKey(list[i], kind, id)
    ensures Without(list, kind, id) == list
  {
    if list != [] {
      var tail := list[1..];
      assert forall i :: 0 <= i < |tail| ==> tail[i] == list[i + 1];
      WithoutAbsent(tail, kind, id);
      assert !HasKey(list[0], kind, id);
      assert list == [list[0]] + tail;
    }
  }

  /** Dropping entries keeps the remaining keys distinct. */
  lemma {:induction false} SubsequenceKeepsDistinct(a: seq<ViewHistory>, b: seq<ViewHistory>)
    requires IsSubsequence(a, b) && KeysDistinct(b)
    ensures KeysDistinct(a)
    decreases |b|
  {
    if a != [] && b != [] {
      assert KeysDistinct(b[1..]);
      if a[0] == b[0] {
        SubsequenceKeepsDistinct(a[1..], b[1..]);
        SubsequenceMembers(a[1..], b[1..]);
        forall j | 0 < j < |a|
          ensures !HasKey(a[j], a[0].kind, a[0].id)
        {
          assert a[j] == a[1..][j - 1];
          var k :| 0 <= k < |b[1..]| && b[1..][k] == a[j];
          assert b[k + 1] == a[j];
        }
        forall i, j | 0 <= i < j < |a|
          ensures !HasKey(a[j], a[i].kind, a[i].id)
        {
          if i > 0 {
            assert a[i] == a[1..][i - 1] && a[j] == a[1..][j - 1];
          }
        }
      } else {
        SubsequenceKeepsDistinct(a, b[1..]);
      }
    }
  }

  /** Every entry of a subsequence is an entry of the list. */
  lemma {:induction false} SubsequenceMembers(a: seq<ViewHistory>, b: seq<ViewHistory>)
    requires IsSubsequence(a, b)
    ensures forall j :: 0 <= j < |a| ==> exists k :: 0 <= k < |b| && b[k] == a[j]
    decreases |b|
  {
    if a != [] && b != [] {
      if a[0] == b[0] {
        SubsequenceMembers(a[1..], b[1..]);
        forall j | 0 < j < |a|
          ensures exists k :: 0 <= k < |b| && b[k] == a[j]
        {
          assert a[j] == a[1..][j - 1];
          var k :| 0 <= k < |b[1..]| && b[1..][k] == a[j];
          assert b[k + 1] == a[j];
        }
        assert b[0] == a[0];
      } else {
        SubsequenceMembers(a, b[1..]);
        forall j | 0 <= j < |a|
          ensures exists k :: 0 <= k < |b| && b[k] == a[j]
        {
          var k :| 0 <= k < |b[1..]| && b[1..][k] == a[j];
          assert b[k + 1] == a[j];
        }
      }
    }
  }

  /** Adding a page to a list of distinct pages leaves the pages distinct. */
  lemma {:induction false} AddedKeepsDistinct(list: seq<ViewHistory>, h: ViewHistory)
    requires KeysDistinct(list)
    ensures KeysDistinct(Added(list, h))
  {
    var rest := Without(list, h.kind, h.id);
    WithoutIsSubsequence(list, h.kind, h.id);
    SubsequenceKeepsDistinct(rest, list);
    var r := Added(list, h);
    forall i, j | 0 <= i < j < |r|
      ensures !HasKey(r[j], r[i].kind, r[i].id)
    {
      if i > 0 {
        assert r[i] == rest[i - 1] && r[j] == rest[j - 1];
      }
    }
  }

  /**
   * The storage slot (localStorage under 'hododasu_view_history'): absent,
   * or holding a saved list.
   */
  class ViewHistoryStore {
    var slot: Option<seq<ViewHistory>>

    constructor (initial: Option<seq<ViewHistory>>)
      ensures slot == initial
    {
      slot := initial;
    }

    /** getViewHistory: the saved list, or the empty list when nothing is saved. */
    function Stored(): seq<ViewHistory>
      reads this
    {
      slot.GetOr([])
    }

    method GetViewHistory() returns (history: seq<ViewHistory>)
      ensures slot.None? ==> history == []
      ensures slot.Some? ==> history == slot.value
    {
      history := Stored();
    }

    /** saveViewHistory: store the list, cut to its first 50 entries. */
    method SaveViewHistory(history: seq<ViewHistory>)
      modifies this
      ensures slot == Some(Limited(history))
      ensures |Stored()| <= MaxHistoryItems
    {
      slot := Some(Limited(history));
    }

    /** addViewHistory: move (or put) `h` to the front, dropping its older entry. */
    method AddViewHistory(h: ViewHistory)
      modifies this
      ensures slot == Some(Added(old(Stored()), h))
      ensures Stored()[0] == h
      ensures forall i :: 0 < i < |Stored()| ==> !HasKey(Stored()[i], h.kind, h.id)
      ensures Stored()[1..] <= Without(old(Stored()), h.kind, h.id)
      ensures |Stored()| == if |Without(old(Stored()), h.kind, h.id)| < MaxHistoryItems
                            then |Without(old(Stored()), h.kind, h.id)| + 1 else MaxHistoryItems
      ensures |Stored()| <= MaxHistoryItems
      ensures KeysDistinct(old(Stored())) ==> KeysDistinct(Stored())
    {
      var currentHistory := GetViewHistory();
      if KeysDistinct(currentHistory) {
        AddedKeepsDistinct(currentHistory, h);
      }
      var filteredHistory := Without(currentHistory, h.kind, h.id);
      var newHistory := [h] + filteredHistory;
      SaveViewHistory(newHistory);
    }

    /** removeViewHistory: drop the page (kind, id), keeping the other entries in order. */
    method RemoveViewHistory(kind: HistoryType, id: string)
      modifies this
      ensures slot == Some(Limited(Without(old(Stored()), kind, id)))
      ensures forall x :: x in Stored() ==> !HasKey(x, kind, id)
      ensures |old(Stored())| <= MaxHistoryItems ==> Stored() == Without(old(Stored()), kind, id)
    {
      var currentHistory := GetViewHistory();
      var filteredHistory := Without(currentHistory, kind, id);
      SaveViewHistory(filteredHistory);
      assert forall x :: x in Stored() ==> x in filteredHistory;
    }

    /** clearViewHistory: empty the slot. */
    method ClearViewHistory()
      modifies this
      ensures slot == None
      ensures Stored() == []
    {
      slot := None;
    }
  }

  /** Removing the same page twice saves what removing it once saved. */
  lemma {:induction false} RemoveIdempotent(list: seq<ViewHistory>, kind: HistoryType, id: string)
    ensures Limited(Without(Limited(Without(list, kind, id)), kind, id)) == Limited(Without(list, kind, id))
  {
    var once := Limited(Without(list, kind, id));
    forall x | x in once
      ensures !HasKey(x, kind, id)
    {
    }
    assert forall i :: 0 <= i < |once| ==> once[i] in once;
    WithoutAbsent(once, kind, id);
  }
}
