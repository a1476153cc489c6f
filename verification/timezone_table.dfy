/**
 * The ordered table of timezones: labels mapped to whole-hour UTC offsets,
 * iterated in insertion order (a `LinkedHashMap<String, i32>`). The order
 * is the order of cyclic navigation.
 */
module TimezoneTable {
  import opened Wrappers

  type Label = string
  type Entry = (Label, int)
  type Table = seq<Entry>

  /** `contains_key`. */
  predicate HasKey(t: Table, l: Label) {
    exists i :: 0 <= i < |t| && t[i].0 == l
  }

  /** A map never holds one key twice. */
  predicate UniqueKeys(t: Table) {
    forall i, j :: 0 <= i < j < |t| ==> t[i].0 != t[j].0
  }

  /** What the configuration keeps about its table at all times: a map that is not empty. */
  predicate WellFormed(t: Table) {
    |t| > 0 && UniqueKeys(t)
  }

  /** The position of the first entry labelled `l`, if any. */
  function IndexOf(t: Table, l: Label): (r: Option<nat>)
    ensures r.Some? ==> r.value < |t| && t[r.value].0 == l
    ensures r.Some? ==> forall q :: 0 <= q < r.value ==> t[q].0 != l
    ensures r.None? <==> !HasKey(t, l)
  {
    if t == [] then None
    else if t[0].0 == l then Some(0)
    else
      match IndexOf(t[1..], l)
      case None =>
        assert forall i :: 1 <= i < |t| ==> t[i].0 == t[1..][i - 1].0;
        None
      case Some(p) => Some(p + 1)
  }

  /** In a map, the label of the i-th entry is found at position i. */
  lemma IndexOfPosition(t: Table, i: nat)
    requires UniqueKeys(t) && i < |t|
    ensures IndexOf(t, t[i].0) == Some(i)
  {
    var r := IndexOf(t, t[i].0);
    assert r.Some?;
  }

  /** `get_timezone_offset`: the stored offset, or 0 when the label is unknown. */
  function OffsetOf(t: Table, l: Label): (r: int)
    ensures HasKey(t, l) ==> (l, r) in t
    ensures !HasKey(t, l) ==> r == 0
  {
    match IndexOf(t, l)
    case Some(p) => t[p].1
    case None => 0
  }

  /** In a map, the offset found for a label is the one stored with it. */
  lemma OffsetOfStored(t: Table, l: Label, v: int)
    requires UniqueKeys(t) && (l, v) in t
    ensures OffsetOf(t, l) == v
  {
    var i :| 0 <= i < |t| && t[i] == (l, v);
    IndexOfPosition(t, i);
  }

  /**
   * `get_next_timezone`: the label after `l`; the first label when `l` is
   * the last one or is not in the table.
   */
  function Next(t: Table, l: Label): (r: Label)
    requires |t| > 0
    ensures HasKey(t, r)
    ensures !HasKey(t, l) ==> r == t[0].0
  {
    match IndexOf(t, l)
    case Some(p) => if p + 1 < |t| then t[p + 1].0 else t[0].0
    case None => t[0].0
  }

  /**
   * `get_prev_timezone`: the label before `l`; the last label when `l` is
   * the first one or is not in the table.
   */
  function Prev(t: Table, l: Label): (r: Label)
    requires |t| > 0
    ensures HasKey(t, r)
    ensures !HasKey(t, l) ==> r == t[|t| - 1].0
  {
    match IndexOf(t, l)
    case Some(p) => if p > 0 then t[p - 1].0 else t[|t| - 1].0
    case None => t[|t| - 1].0
  }

  lemma NextFollows(t: Table, i: nat)
    requires UniqueKeys(t) && i + 1 < |t|
    ensures Next(t, t[i].0) == t[i + 1].0
  {
    IndexOfPosition(t, i);
  }

  lemma NextWraps(t: Table)
    requires UniqueKeys(t) && |t| > 0
    ensures Next(t, t[|t| - 1].0) == t[0].0
  {
    IndexOfPosition(t, |t| - 1);
  }

  lemma PrevFollows(t: Table, i: nat)
    requires UniqueKeys(t) && 0 < i < |t|
    ensures Prev(t, t[i].0) == t[i - 1].0
  {
    IndexOfPosition(t, i);
  }

  lemma PrevWraps(t: Table)
    requires |t| > 0
    ensures Prev(t, t[0].0) == t[|t| - 1].0
  {
  }

  /** Stepping back and then forward, or forward and then back, returns to the label. */
  lemma NextPrevInverse(t: Table, l: Label)
    requires WellFormed(t) && HasKey(t, l)
    ensures Next(t, Prev(t, l)) == l
    ensures Prev(t, Next(t, l)) == l
  {
    var p := IndexOf(t, l).value;
    if p > 0 {
      PrevFollows(t, p);
      NextFollows(t, p - 1);
    } else {
      PrevWraps(t);
      NextWraps(t);
    }
    if p + 1 < |t| {
      NextFollows(t, p);
      PrevFollows(t, p + 1);
    } else {
      NextWraps(t);
      PrevWraps(t);
    }
  }

  /** With a single entry, both directions stay on it, whatever the label asked about. */
  lemma SingleEntryNavigation(t: Table, l: Label)
    requires |t| == 1
    ensures Next(t, l) == t[0].0 && Prev(t, l) == t[0].0
  {
  }

  /** The map without the entry labelled `l`. */
  function Remove(t: Table, l: Label): (r: Table)
    ensures !HasKey(r, l)
    ensures forall e :: e in r <==> e in t && e.0 != l
    ensures UniqueKeys(t) ==> UniqueKeys(r)
    ensures !HasKey(t, l) ==> r == t
  {
    if t == [] then []
    else
      var rest := Remove(t[1..], l);
      assert forall e :: e in t <==> e == t[0] || e in t[1..];
      assert HasKey(t[1..], l) ==> HasKey(t, l) by {
        if HasKey(t[1..], l) {
          var i :| 0 <= i < |t[1..]| && t[1..][i].0 == l;
          assert t[i + 1].0 == l;
        }
      }
      if t[0].0 == l then rest
      else
        assert UniqueKeys(t) ==> forall e :: e in rest ==> e.0 != t[0].0;
        [t[0]] + rest
  }

  /**
   * `LinkedHashMap::insert`: the label now maps to `v`; a new label is
   * appended after the existing entries, which keep their order; a label
   * already present loses its old entry and the new one is attached at the
   * end, as the linked-hash-map crate re-attaches an updated node.
   */
  function Insert(t: Table, l: Label, v: int): (r: Table)
    ensures |r| > 0
    ensures forall e :: e in r <==> e == (l, v) || (e in t && e.0 != l)
    ensures UniqueKeys(t) ==> UniqueKeys(r)
    ensures !HasKey(t, l) ==> r == t + [(l, v)]
  {
    Remove(t, l) + [(l, v)]
  }

  /** After an insert the label reads back the inserted offset and every other label its old one. */
  lemma InsertLookup(t: Table, l: Label, v: int, k: Label)
    requires UniqueKeys(t)
    ensures OffsetOf(Insert(t, l, v), l) == v
    ensures k != l ==> OffsetOf(Insert(t, l, v), k) == OffsetOf(t, k)
    ensures HasKey(Insert(t, l, v), k) <==> k == l || HasKey(t, k)
  {
    var r := Insert(t, l, v);
    OffsetOfStored(r, l, v);
    if k != l {
      if HasKey(t, k) {
        var w := OffsetOf(t, k);
        assert (k, w) in r;
        OffsetOfStored(r, k, w);
      }
    }
    if k == l {
      assert r[|r| - 1] == (l, v);
    } else if HasKey(t, k) {
      var w := OffsetOf(t, k);
      assert (k, w) in r;
      var i :| 0 <= i < |r| && r[i] == (k, w);
      assert r[i].0 == k;
    }
  }
}
