/** JavaScript's `Array.prototype.splice` on immutable sequences, and the
    two list edits the playlist code builds from it: removing the element at
    an index, and moving one element to another position. */
module JsArray {

  /** Where splice starts: a negative `start` counts back from the end
      (never before 0), and a start past the end is the end. */
  function StartIndex(len: nat, start: int): (k: nat)
    ensures k <= len
    ensures 0 <= start <= len ==> k == start
    ensures start > len ==> k == len
    ensures start < 0 && len + start >= 0 ==> k == len + start
    ensures len + start < 0 ==> k == 0
  {
    if start < 0 then (if len + start < 0 then 0 else len + start)
    else if start > len then len
    else start
  }

  /** How many elements splice removes: `deleteCount` clamped to what is
      left after the start position. */
  function DeleteCount(len: nat, k: nat, deleteCount: int): (n: nat)
    requires k <= len
    ensures k + n <= len
    ensures 0 <= deleteCount <= len - k ==> n == deleteCount
    ensures deleteCount < 0 ==> n == 0
    ensures deleteCount > len - k ==> n == len - k
  {
    if deleteCount < 0 then 0
    else if deleteCount > len - k then len - k
    else deleteCount
  }

  /** Result of a splice: the removed elements and the array afterwards. */
  datatype Spliced<T> = Spliced(removed: seq<T>, result: seq<T>)

  /** `a.splice(start, deleteCount, ...items)`. */
  function Splice<T>(s: seq<T>, start: int, deleteCount: int, items: seq<T>): Spliced<T> {
    var k := StartIndex(|s|, start);
    var n := DeleteCount(|s|, k, deleteCount);
    Spliced(s[k..k + n], s[..k] + items + s[k + n..])
  }

  /** A splice keeps the elements before the start position, replaces the
      removed run by the inserted items and keeps the elements after the run;
      nothing is lost or invented. */
  lemma {:induction false} SpliceContents<T>(s: seq<T>, start: int, deleteCount: int, items: seq<T>)
    ensures var r := Splice(s, start, deleteCount, items);
            var k := StartIndex(|s|, start);
            var n := |r.removed|;
            && k + n <= |s|
            && n == DeleteCount(|s|, k, deleteCount)
            && r.removed == s[k..k + n]
            && |r.result| == |s| - n + |items|
            && r.result[..k] == s[..k]
            && r.result[k..k + |items|] == items
            && r.result[k + |items|..] == s[k + n..]
    ensures multiset(Splice(s, start, deleteCount, items).result)
            + multiset(Splice(s, start, deleteCount, items).removed)
            == multiset(s) + multiset(items)
  {
    var k := StartIndex(|s|, start);
    var n := DeleteCount(|s|, k, deleteCount);
    var r := Splice(s, start, deleteCount, items);
    assert s == s[..k] + s[k..k + n] + s[k + n..];
    assert r.result[..k] == s[..k];
    assert r.result[k..k + |items|] == items;
    assert r.result[k + |items|..] == s[k + n..];
  }

  /** Splicing the removed elements back in where the inserted ones went
      undoes a splice. */
  lemma {:induction false} SpliceUndo<T>(s: seq<T>, start: int, deleteCount: int, items: seq<T>)
    ensures var r := Splice(s, start, deleteCount, items);
            var k := StartIndex(|s|, start);
            Splice(r.result, k, |items|, r.removed).result == s
  {
    var k := StartIndex(|s|, start);
    var n := DeleteCount(|s|, k, deleteCount);
    var res := s[..k] + items + s[k + n..];
    assert StartIndex(|res|, k) == k;
    assert DeleteCount(|res|, k, |items|) == |items|;
    assert res[..k] == s[..k];
    assert res[k + |items|..] == s[k + n..];
    assert s == s[..k] + s[k..k + n] + s[k + n..];
  }

  /** `a.splice(i, 1)` keeping the array: remove the element at `i`. */
  function RemoveAt<T>(s: seq<T>, i: int): seq<T> {
    Splice(s, i, 1, []).result
  }

  /** An index inside the list removes exactly that element; the others keep
      their order and the length drops by one. */
  lemma {:induction false} RemoveInRange<T>(s: seq<T>, i: int)
    requires 0 <= i < |s|
    ensures RemoveAt(s, i) == s[..i] + s[i + 1..]
    ensures |RemoveAt(s, i)| == |s| - 1
    ensures forall j :: 0 <= j < i ==> RemoveAt(s, i)[j] == s[j]
    ensures forall j :: i <= j < |s| - 1 ==> RemoveAt(s, i)[j] == s[j + 1]
  {
  }

  /** An index at or past the end removes nothing. */
  lemma {:induction false} RemovePastEnd<T>(s: seq<T>, i: int)
    requires i >= |s|
    ensures RemoveAt(s, i) == s
  {
    assert s[..|s|] + [] + s[|s|..] == s;
  }

  /** A negative index counts from the end; one further back than the length
      removes the first element. */
  lemma {:induction false} RemoveNegative<T>(s: seq<T>, i: int)
    requires i < 0 && |s| > 0
    ensures -|s| <= i ==> RemoveAt(s, i) == s[..|s| + i] + s[|s| + i + 1..]
    ensures i < -|s| ==> RemoveAt(s, i) == s[1..]
  {
    if i < -|s| {
      assert s[..0] + [] + s[1..] == s[1..];
    }
  }

  /** The drag-reorder edit: `[x] = a.splice(from, 1); a.splice(to, 0, x)`.
      The dragged element always exists, because drag indices are positions
      of rendered rows. */
  function Move<T>(s: seq<T>, from: int, to: int): seq<T>
    requires 0 <= from < |s|
  {
    var cut := Splice(s, from, 1, []);
    Splice(cut.result, to, 0, [cut.removed[0]]).result
  }

  /** The move as one formula: take the element out, then insert it at the
      target position of the shortened list. */
  lemma {:induction false} MoveFormula<T>(s: seq<T>, from: int, to: int)
    requires 0 <= from < |s|
    ensures var t := s[..from] + s[from + 1..];
            var k := StartIndex(|t|, to);
            Move(s, from, to) == t[..k] + [s[from]] + t[k..]
  {
    var t := s[..from] + s[from + 1..];
    assert Splice(s, from, 1, []).removed == [s[from]];
    assert Splice(s, from, 1, []).result == t;
    var k := StartIndex(|t|, to);
    assert DeleteCount(|t|, k, 0) == 0;
    assert t[k + 0..] == t[k..];
  }

  /** Inserting one element adds exactly that element to the multiset. */
  lemma {:induction false} InsertMultiset<T>(t: seq<T>, x: T, k: nat)
    requires k <= |t|
    ensures multiset(t[..k] + [x] + t[k..]) == multiset(t) + multiset{x}
  {
    assert t == t[..k] + t[k..];
  }

  /** A move keeps the length and the elements, and puts the dragged element
      at the (clamped) target position. */
  lemma {:induction false} MovePermutes<T>(s: seq<T>, from: int, to: int)
    requires 0 <= from < |s|
    ensures |Move(s, from, to)| == |s|
    ensures multiset(Move(s, from, to)) == multiset(s)
    ensures Move(s, from, to)[StartIndex(|s| - 1, to)] == s[from]
  {
    MoveFormula(s, from, to);
    var x := s[from];
    var t := s[..from] + s[from + 1..];
    var k := StartIndex(|t|, to);
    InsertThenRemove(t, x, k);
    InsertMultiset(t, x, k);
    RemoveThenInsert(s, from);
    InsertMultiset(t, x, from);
  }

  /** Independent description of a move: moving forward shifts the elements
      between the two positions one place towards the front, moving backward
      shifts them one place towards the back, and everything outside the two
      positions stays where it was. */
  lemma {:induction false} MoveShifts<T>(s: seq<T>, from: int, to: int)
    requires 0 <= from < |s| && 0 <= to < |s|
    ensures from <= to ==> Move(s, from, to) == s[..from] + s[from + 1..to + 1] + [s[from]] + s[to + 1..]
    ensures to < from ==> Move(s, from, to) == s[..to] + [s[from]] + s[to..from] + s[from + 1..]
  {
    MoveFormula(s, from, to);
    var t := s[..from] + s[from + 1..];
    assert StartIndex(|t|, to) == to;
    if from <= to {
      assert t[..to] == s[..from] + s[from + 1..to + 1];
      assert t[to..] == s[to + 1..];
    } else {
      assert t[..to] == s[..to];
      assert t[to..] == s[to..from] + s[from + 1..];
    }
  }

  /** Inserting an element at position `j` and then removing position `j`
      gives back the element and the list it was inserted into. */
  lemma {:induction false} InsertThenRemove<T>(t: seq<T>, x: T, j: nat)
    requires j <= |t|
    ensures (t[..j] + [x] + t[j..])[j] == x
    ensures var m := t[..j] + [x] + t[j..]; m[..j] + m[j + 1..] == t
  {
    var m := t[..j] + [x] + t[j..];
    assert m[..j] == t[..j];
    assert m[j + 1..] == t[j..];
  }

  /** Removing position `i` and inserting the element again at `i` gives
      back the list. */
  lemma {:induction false} RemoveThenInsert<T>(s: seq<T>, i: nat)
    requires i < |s|
    ensures var t := s[..i] + s[i + 1..]; t[..i] + [s[i]] + t[i..] == s
  {
    var t := s[..i] + s[i + 1..];
    assert t[..i] == s[..i];
    assert t[i..] == s[i + 1..];
    assert s == s[..i] + [s[i]] + s[i + 1..];
  }

  /** Moving an element back to where it came from restores the list. */
  lemma {:induction false} MoveBack<T>(s: seq<T>, i: int, j: int)
    requires 0 <= i < |s| && 0 <= j < |s|
    ensures Move(Move(s, i, j), j, i) == s
  {
    var x := s[i];
    var t := s[..i] + s[i + 1..];
    MoveFormula(s, i, j);
    assert StartIndex(|t|, j) == j;
    var m := t[..j] + [x] + t[j..];
    MoveFormula(m, j, i);
    InsertThenRemove(t, x, j);
    assert StartIndex(|t|, i) == i;
    RemoveThenInsert(s, i);
  }
}
