/**
 * The plugin configuration: the timezone table, the default label and the
 * background colour, with the loader that overrides them from an already
 * parsed KDL document.
 */
module Config {
  import opened Wrappers
  import opened Text
  import opened Palette
  import opened TimezoneTable

  /** A KDL node: its name and the text of each of its entries (`KdlEntry::to_string`). */
  datatype Node = Node(name: string, entries: seq<string>)

  /**
   * What the loader reads from a parsed KDL document:
   * the children of the `timezone` node (None when there is no such node or
   * it has no children block), the text of the `defalut_timezone` argument,
   * and the `background_color` argument once parsed as a CSS colour (None
   * when it is absent or does not parse).
   */
  datatype Document = Document(
    timezoneChildren: Option<seq<Node>>,
    defaultTimezone: Option<string>,
    backgroundColor: Option<RgbTriple>)

  const DefaultBackgroundColor: RgbTriple := (32, 32, 32)
  const DefaultTimezone: Label := "UTC"
  const DefaultTable: Table := [("UTC", 0), ("PDT", -7), ("JST", 9)]

  /** A label as written in the document: trimmed, with every double quote removed. */
  function CleanLabel(raw: string): (l: Label)
    ensures '"' !in l
  {
    RemoveQuotes(Trim(raw))
  }

  /**
   * What a child of `timezone` contributes: an entry when it is named
   * `define`, has at least two entries and its second entry parses as an i32.
   */
  function DefineEntry(n: Node): Option<Entry> {
    if n.name == "define" && |n.entries| >= 2 then
      match ParseI32(Trim(n.entries[1]))
      case Some(offset) => Some((CleanLabel(n.entries[0]), offset))
      case None => None
    else None
  }

  /**
   * A node contributes exactly when it is a `define` with at least two
   * entries whose second parses as an i32; its label is the cleaned first entry.
   */
  lemma DefineEntryContributes(n: Node)
    ensures DefineEntry(n).Some? <==>
      n.name == "define" && |n.entries| >= 2 && ParseI32(Trim(n.entries[1])).Some?
    ensures DefineEntry(n).Some? ==>
      DefineEntry(n).value == (CleanLabel(n.entries[0]), ParseI32(Trim(n.entries[1])).value)
    ensures DefineEntry(n).Some? ==> '"' !in DefineEntry(n).value.0
    ensures DefineEntry(n).Some? ==> I32_MIN <= DefineEntry(n).value.1 <= I32_MAX
  {
  }

  /** The candidate table: every contributing node inserted in document order. */
  function CollectDefines(nodes: seq<Node>): Table {
    if nodes == [] then []
    else
      var prefix := CollectDefines(nodes[..|nodes| - 1]);
      match DefineEntry(nodes[|nodes| - 1])
      case None => prefix
      case Some(e) => Insert(prefix, e.0, e.1)
  }

  /** The candidate is a map: no label twice. */
  lemma {:induction false} CollectUnique(nodes: seq<Node>)
    ensures UniqueKeys(CollectDefines(nodes))
  {
    if nodes != [] {
      CollectUnique(nodes[..|nodes| - 1]);
    }
  }

  /** The candidate is empty exactly when no node contributes. */
  lemma {:induction false} CollectEmpty(nodes: seq<Node>)
    ensures |CollectDefines(nodes)| == 0 <==> forall i :: 0 <= i < |nodes| ==> DefineEntry(nodes[i]).None?
  {
    if nodes != [] {
      var init := nodes[..|nodes| - 1];
      CollectEmpty(init);
      assert forall i :: 0 <= i < |init| ==> init[i] == nodes[i];
    }
  }

  /** Every entry of the candidate is the contribution of some node. */
  lemma {:induction false} CollectFromNodes(nodes: seq<Node>, e: Entry)
    requires e in CollectDefines(nodes)
    ensures exists i :: 0 <= i < |nodes| && DefineEntry(nodes[i]) == Some(e)
  {
    var last := |nodes| - 1;
    var init := nodes[..last];
    var prefix := CollectDefines(init);
    if DefineEntry(nodes[last]) != Some(e) {
      assert e in prefix by {
        match DefineEntry(nodes[last])
        case None =>
        case Some(x) => assert CollectDefines(nodes) == Insert(prefix, x.0, x.1);
      }
      CollectFromNodes(init, e);
      var i :| 0 <= i < |init| && DefineEntry(init[i]) == Some(e);
      assert init[i] == nodes[i];
    }
  }

  /**
   * A node defining a label not yet in the candidate appends its entry:
   * the table lists labels in the order of their first definition.
   */
  lemma CollectAppendsNew(nodes: seq<Node>, n: Node)
    requires DefineEntry(n).Some? && !HasKey(CollectDefines(nodes), DefineEntry(n).value.0)
    ensures CollectDefines(nodes + [n]) == CollectDefines(nodes) + [DefineEntry(n).value]
  {
    assert (nodes + [n])[..|nodes|] == nodes;
  }

  /** The entries the nodes contribute, in document order. */
  function Contributions(nodes: seq<Node>): seq<Entry> {
    if nodes == [] then []
    else
      var init := Contributions(nodes[..|nodes| - 1]);
      match DefineEntry(nodes[|nodes| - 1])
      case None => init
      case Some(e) => init + [e]
  }

  /**
   * When no label is defined twice, the candidate lists the defined
   * entries exactly in document order, which becomes the navigation order.
   */
  lemma {:induction false} CollectInDocumentOrder(nodes: seq<Node>)
    requires forall i, j :: 0 <= i < j < |nodes| && DefineEntry(nodes[i]).Some? && DefineEntry(nodes[j]).Some? ==>
      DefineEntry(nodes[i]).value.0 != DefineEntry(nodes[j]).value.0
    ensures CollectDefines(nodes) == Contributions(nodes)
  {
    if nodes != [] {
      var last := |nodes| - 1;
      var init := nodes[..last];
      assert forall i :: 0 <= i < |init| ==> init[i] == nodes[i];
      CollectInDocumentOrder(init);
      match DefineEntry(nodes[last]) {
        case None =>
        case Some(x) =>
          var t := CollectDefines(init);
          forall k | 0 <= k < |t|
            ensures t[k].0 != x.0
          {
            CollectFromNodes(init, t[k]);
            var i :| 0 <= i < |init| && DefineEntry(init[i]) == Some(t[k]);
            assert init[i] == nodes[i];
          }
          assert nodes == init + [nodes[last]];
          CollectAppendsNew(init, nodes[last]);
      }
    }
  }

  /** The last node that defines a label decides its offset. */
  lemma {:induction false} CollectLastWins(nodes: seq<Node>, i: nat, l: Label, v: int)
    requires i < |nodes| && DefineEntry(nodes[i]) == Some((l, v))
    requires forall j :: i < j < |nodes| ==> DefineEntry(nodes[j]).None? || DefineEntry(nodes[j]).value.0 != l
    ensures HasKey(CollectDefines(nodes), l)
    ensures OffsetOf(CollectDefines(nodes), l) == v
  {
    var last := |nodes| - 1;
    var init := nodes[..last];
    var prefix := CollectDefines(init);
    var c := DefineEntry(nodes[last]);
    CollectUnique(init);
    if i == last {
      assert CollectDefines(nodes) == Insert(prefix, l, v);
      InsertLookup(prefix, l, v, l);
    } else {
      assert init[i] == nodes[i];
      assert forall j :: i < j < |init| ==> init[j] == nodes[j];
      CollectLastWins(init, i, l, v);
      if c.Some? {
        assert c.value.0 != l;
        assert CollectDefines(nodes) == Insert(prefix, c.value.0, c.value.1);
        InsertLookup(prefix, c.value.0, c.value.1, l);
      } else {
        assert CollectDefines(nodes) == prefix;
      }
    }
  }

  function ChildrenOf(d: Document): seq<Node> {
    match d.timezoneChildren
    case Some(nodes) => nodes
    case None => []
  }

  /** The table after a load: the candidate when it is non-empty, the current table otherwise. */
  function LoadedTable(current: Table, doc: Option<Document>): Table {
    match doc
    case None => current
    case Some(d) =>
      var candidate := CollectDefines(ChildrenOf(d));
      if |candidate| > 0 then candidate else current
  }

  /**
   * The default label after a load, given the table the load produced:
   * the requested label when the table has it, the first label when it does
   * not, and the current default when nothing was requested.
   */
  function LoadedDefault(table: Table, current: Label, doc: Option<Document>): Label
    requires |table| > 0
  {
    match doc
    case None => current
    case Some(d) =>
      match d.defaultTimezone
      case None => current
      case Some(raw) =>
        var l := CleanLabel(raw);
        if HasKey(table, l) then l else table[0].0
  }

  function LoadedBackground(current: RgbTriple, doc: Option<Document>): RgbTriple {
    match doc
    case Some(Document(_, _, Some(color))) => color
    case _ => current
  }

  /** Loading never empties the table nor duplicates a label. */
  lemma LoadKeepsTableWellFormed(t: Table, doc: Option<Document>)
    requires WellFormed(t)
    ensures WellFormed(LoadedTable(t, doc))
  {
    if doc.Some? {
      CollectUnique(ChildrenOf(doc.value));
    }
  }

  /** The table is replaced exactly when some node of the document is a valid `define`. */
  lemma LoadReplacesOnlyWithDefines(t: Table, d: Document)
    ensures (exists i :: 0 <= i < |ChildrenOf(d)| && DefineEntry(ChildrenOf(d)[i]).Some?) ==>
      LoadedTable(t, Some(d)) == CollectDefines(ChildrenOf(d)) && |LoadedTable(t, Some(d))| > 0
    ensures (forall i :: 0 <= i < |ChildrenOf(d)| ==> DefineEntry(ChildrenOf(d)[i]).None?) ==>
      LoadedTable(t, Some(d)) == t
  {
    CollectEmpty(ChildrenOf(d));
  }

  /**
   * A requested default label always ends up in the table: the request
   * itself when the table has it, the first label otherwise. Without a
   * request the default is left as it was.
   */
  lemma LoadDefaultResolution(t: Table, current: Label, d: Document)
    requires |t| > 0
    ensures d.defaultTimezone.Some? ==> HasKey(t, LoadedDefault(t, current, Some(d)))
    ensures d.defaultTimezone.Some? && HasKey(t, CleanLabel(d.defaultTimezone.value)) ==>
      LoadedDefault(t, current, Some(d)) == CleanLabel(d.defaultTimezone.value)
    ensures d.defaultTimezone.Some? && !HasKey(t, CleanLabel(d.defaultTimezone.value)) ==>
      LoadedDefault(t, current, Some(d)) == t[0].0
    ensures d.defaultTimezone.None? ==> LoadedDefault(t, current, Some(d)) == current
  {
  }

  lemma ParseNine()
    ensures ParseI32(Trim(" 9")) == Some(9)
  {
    assert Trim(" 9") == "9" by {
      assert TrimStart(" 9") == "9";
      assert TrimEnd("9") == "9";
    }
    assert DigitsValue("9") == 9 by {
      assert "9"[..0] == "";
    }
  }

  lemma CleanJst()
    ensures CleanLabel(" \"JST\"") == "JST"
  {
    assert TrimStart(" \"JST\"") == "\"JST\"";
    assert TrimEnd("\"JST\"") == "\"JST\"";
    assert RemoveQuotes("\"JST\"") == "JST" by {
      assert RemoveQuotes("\"") == "";
      assert RemoveQuotes("T\"") == "T";
      assert RemoveQuotes("ST\"") == "ST";
      assert RemoveQuotes("JST\"") == "JST";
    }
  }

  /** The node `define "JST" 9`, as the document parser hands it over, contributes ("JST", 9). */
  lemma DefineJst()
    ensures DefineEntry(Node("define", [" \"JST\"", " 9"])) == Some(("JST", 9))
  {
    ParseNine();
    CleanJst();
  }

  /**
   * A document that redefines the table without naming a default leaves the
   * old default in place even though the new table no longer has it.
   */
  lemma LoadDefaultMayLeaveTable()
    ensures var d := Document(Some([Node("define", [" \"JST\"", " 9"])]), None, None);
      var t := LoadedTable(DefaultTable, Some(d));
      t == [("JST", 9)] && LoadedDefault(t, DefaultTimezone, Some(d)) == "UTC" && !HasKey(t, "UTC")
  {
    var n := Node("define", [" \"JST\"", " 9"]);
    DefineJst();
    assert [n][..0] == [];
    assert CollectDefines([n]) == Insert([], "JST", 9);
    assert Remove([], "JST") == [];
  }

  /**
   * The loop of `load_config` over the children of the `timezone` node:
   * each contributing `define` is inserted into the candidate table.
   */
  method CollectCandidate(nodes: seq<Node>) returns (candidate: Table)
    ensures candidate == CollectDefines(nodes)
  {
    candidate := [];
    var i := 0;
    while i < |nodes|
      invariant 0 <= i <= |nodes|
      invariant candidate == CollectDefines(nodes[..i])
    {
      var node := nodes[i];
      ghost var before := candidate;
      if node.name == "define" && |node.entries| >= 2 {
        var offset := ParseI32(Trim(node.entries[1]));
        if offset.Some? {
          candidate := Insert(candidate, CleanLabel(node.entries[0]), offset.value);
        }
      }
      assert candidate == match DefineEntry(node)
        case None => before
        case Some(e) => Insert(before, e.0, e.1);
      assert nodes[..i + 1][..i] == nodes[..i];
      i := i + 1;
    }
    assert nodes[..|nodes|] == nodes;
  }

  /** The key the iterator yields after position `q`, if any. */
  function LabelAfter(t: Table, q: nat): Option<Label> {
    if q + 1 < |t| then Some(t[q + 1].0) else None
  }

  class Config {
    var timezone: Table
    var defaultTimezone: Label
    var backgroundColor: RgbTriple

    ghost predicate Valid()
      reads this
    {
      WellFormed(timezone)
    }

    /** `Config::default`: UTC, PDT and JST in that order, UTC as default, a dark grey background. */
    constructor ()
      ensures Valid()
      ensures timezone == DefaultTable
      ensures defaultTimezone == DefaultTimezone
      ensures backgroundColor == DefaultBackgroundColor
    {
      var t: Table := [];
      t := Insert(t, DefaultTimezone, 0);
      t := Insert(t, "PDT", -7);
      assert Remove([(DefaultTimezone, 0)], "PDT") == [(DefaultTimezone, 0)];
      t := Insert(t, "JST", 9);
      assert Remove([(DefaultTimezone, 0), ("PDT", -7)], "JST") == [(DefaultTimezone, 0), ("PDT", -7)] by {
        assert Remove([("PDT", -7)], "JST") == [("PDT", -7)];
      }
      timezone := t;
      defaultTimezone := DefaultTimezone;
      backgroundColor := DefaultBackgroundColor;
    }

    function GetDefaultTimezone(): Label
      reads this
    {
      defaultTimezone
    }

    function GetBackgroundColor(): RgbTriple
      reads this
    {
      backgroundColor
    }

    /** `get_timezone_offset`: the offset stored with the label, 0 for an unknown label. */
    function GetTimezoneOffset(zone: Label): (offset: int)
      reads this
      requires Valid()
      ensures forall v :: (zone, v) in timezone ==> offset == v
      ensures !HasKey(timezone, zone) ==> offset == 0
    {
      OffsetOf(timezone, zone)
    }

    /**
     * `get_next_timezone`: walks the keys; on meeting the label it takes the
     * key after it (none when the label is last). No key taken means the first key.
     */
    method GetNextTimezone(zone: Label) returns (next: Label)
      requires Valid()
      ensures next == Next(timezone, zone)
    {
      var found: Option<Label> := None;
      var i := 0;
      while i < |timezone|
        invariant 0 <= i <= |timezone|
        invariant forall q :: 0 <= q < i && timezone[q].0 == zone ==> found == LabelAfter(timezone, q)
        invariant (forall q :: 0 <= q < i ==> timezone[q].0 != zone) ==> found == None
      {
        var k := timezone[i].0;
        i := i + 1;
        if k == zone {
          if i < |timezone| {
            found := Some(timezone[i].0);
            i := i + 1;
          } else {
            found := None;
          }
        }
      }
      match IndexOf(timezone, zone) {
        case Some(p) =>
          assert 0 <= p < i && timezone[p].0 == zone;
          assert found == LabelAfter(timezone, p);
        case None =>
          assert forall q :: 0 <= q < |timezone| ==> timezone[q].0 != zone;
          assert found == None;
      }
      match found {
        case Some(k) => next := k;
        case None => next := timezone[0].0;
      }
    }

    /**
     * `get_prev_timezone`: walks the keys, remembering the last one seen,
     * until it meets the label. Nothing remembered means the last key.
     */
    method GetPrevTimezone(zone: Label) returns (prev: Label)
      requires Valid()
      ensures prev == Prev(timezone, zone)
    {
      var seen: Option<Label> := None;
      var i := 0;
      while i < |timezone|
        invariant 0 <= i <= |timezone|
        invariant forall q :: 0 <= q < i ==> timezone[q].0 != zone
        invariant seen == if i == 0 then None else Some(timezone[i - 1].0)
      {
        var k := timezone[i].0;
        if k == zone {
          break;
        }
        seen := Some(k);
        i := i + 1;
      }
      match seen {
        case Some(k) => prev := k;
        case None => prev := timezone[|timezone| - 1].0;
      }
    }

    /**
     * `load_config`: collects the candidate table from the `define` nodes,
     * swaps it in only when non-empty, then resolves a requested default
     * label against the resulting table and applies a parsed background
     * colour. An unparsable document (`None`) changes nothing.
     */
    method LoadConfig(doc: Option<Document>)
      requires Valid()
      modifies this
      ensures Valid()
      ensures timezone == LoadedTable(old(timezone), doc)
      ensures defaultTimezone == LoadedDefault(timezone, old(defaultTimezone), doc)
      ensures backgroundColor == LoadedBackground(old(backgroundColor), doc)
    {
      var candidate: Table := [];
      if doc.Some? {
        var d := doc.value;
        if d.timezoneChildren.Some? {
          var nodes := d.timezoneChildren.value;
          candidate := CollectCandidate(nodes);
          CollectUnique(nodes);
        }
        if |candidate| > 0 {
          timezone := candidate;
        }
        if d.defaultTimezone.Some? {
          var zone := CleanLabel(d.defaultTimezone.value);
          if HasKey(timezone, zone) {
            defaultTimezone := zone;
          } else {
            defaultTimezone := timezone[0].0;
          }
        }
        if d.backgroundColor.Some? {
          backgroundColor := d.backgroundColor.value;
        }
      }
    }
  }
}
