/**
 * What `main` does once the document is loaded: validate it, build the
 * default-VLAN table from `<defVlans>`, and print one block per `<Port>`.
 * Standard output and standard error are returned as sequences of writes,
 * one string per `std::endl`-ended write.
 */
module ConfigReport {
  import opened XmlTree
  import opened IntText
  import opened ConfigValidator

  /** `e.attribute(name).as_int()`: an absent attribute reads as 0. */
  function AttributeAsInt(e: Element, name: string): int
  {
    if name in e.attrs then AsInt(e.attrs[name]) else 0
  }

  /** `port.attribute("ID").as_int()`: a 32-bit value, and 0 for a port without `ID`. */
  function PortId(p: Element): (id: int)
    ensures IntMin <= id <= IntMax
    ensures "ID" !in p.attrs ==> id == 0
  {
    AttributeAsInt(p, "ID")
  }

  /** `defp.child("vlan").text().as_int()`. */
  function VlanOf(q: Element): (vlan: int)
    ensures IntMin <= vlan <= IntMax
    ensures !HasChild(q, "vlan") ==> vlan == 0
  {
    AsInt(ChildValue(Child(Some(q), "vlan")))
  }

  // The default-VLAN table.

  /** The table after writing the entries of `qs` in order; a later entry overwrites an earlier one. */
  function TableOf(qs: seq<Element>): (table: map<int, int>)
    ensures |table| <= |qs|
  {
    if qs == [] then map[]
    else TableOf(qs[..|qs| - 1])[PortId(qs[|qs| - 1]) := VlanOf(qs[|qs| - 1])]
  }

  /** No entry after index `i` carries the same `ID` as entry `i`. */
  ghost predicate LastWithId(qs: seq<Element>, i: int)
  {
    0 <= i < |qs| && forall j :: i < j < |qs| ==> PortId(qs[j]) != PortId(qs[i])
  }

  /** The keys of the table are exactly the `ID`s of the entries. */
  lemma {:induction false} TableKeys(qs: seq<Element>)
    ensures forall id :: id in TableOf(qs) <==> exists i :: 0 <= i < |qs| && PortId(qs[i]) == id
  {
    if qs != [] {
      var init := qs[..|qs| - 1];
      TableKeys(init);
      forall id | id in TableOf(qs) ensures exists i :: 0 <= i < |qs| && PortId(qs[i]) == id {
        if id != PortId(qs[|qs| - 1]) {
          assert id in TableOf(init);
          var i :| 0 <= i < |init| && PortId(init[i]) == id;
          assert qs[i] == init[i];
        }
      }
      forall id | exists i :: 0 <= i < |qs| && PortId(qs[i]) == id ensures id in TableOf(qs) {
        var i :| 0 <= i < |qs| && PortId(qs[i]) == id;
        if i < |qs| - 1 {
          assert init[i] == qs[i];
        }
      }
    }
  }

  /** Last write wins: an `ID` maps to the `vlan` of the last entry that carries it. */
  lemma {:induction false} TableLastWriteWins(qs: seq<Element>, i: int)
    requires LastWithId(qs, i)
    ensures PortId(qs[i]) in TableOf(qs) && TableOf(qs)[PortId(qs[i])] == VlanOf(qs[i])
  {
    if i < |qs| - 1 {
      var init := qs[..|qs| - 1];
      assert init[i] == qs[i];
      assert LastWithId(init, i) by {
        forall j | i < j < |init| ensures PortId(init[j]) != PortId(init[i]) {
          assert init[j] == qs[j];
        }
      }
      TableLastWriteWins(init, i);
    }
  }

  lemma TableStep(qs: seq<Element>, n: int)
    requires 0 <= n < |qs|
    ensures TableOf(qs[..n + 1]) == TableOf(qs[..n])[PortId(qs[n]) := VlanOf(qs[n])]
  {
    assert qs[..n + 1][..n] == qs[..n];
  }

  /**
   * The loop over `<defVlans>/<port>` that fills `default_vlan`: the table it
   * builds holds exactly the entries' `ID`s, each mapped to the `vlan` of the
   * last entry with that `ID`.
   */
  method BuildDefaultVlanTable(doc: Document) returns (table: map<int, int>)
    ensures table == TableOf(DefPortList(doc))
    ensures forall id :: id in table <==> exists i :: 0 <= i < |DefPortList(doc)| && PortId(DefPortList(doc)[i]) == id
    ensures forall i :: LastWithId(DefPortList(doc), i) ==> table[PortId(DefPortList(doc)[i])] == VlanOf(DefPortList(doc)[i])
  {
    var entries := DefPortList(doc);
    table := map[];
    var n := 0;
    while n < |entries|
      invariant 0 <= n <= |entries|
      invariant table == TableOf(entries[..n])
    {
      var defp := entries[n];
      TableStep(entries, n);
      table := table[PortId(defp) := VlanOf(defp)];
      n := n + 1;
    }
    assert entries[..n] == entries;
    TableKeys(entries);
    forall i | LastWithId(entries, i) ensures table[PortId(entries[i])] == VlanOf(entries[i]) {
      TableLastWriteWins(entries, i);
    }
  }

  /** `default_vlan[id]` read for printing: an absent `ID` gives 0. */
  function Lookup(table: map<int, int>, id: int): (vlan: int)
    ensures id in table ==> vlan == table[id]
    ensures id !in table ==> vlan == 0
  {
    if id in table then table[id] else 0
  }

  /** The VLAN printed for a port: that of the last `<defVlans>` entry with its `ID`, or 0 when there is none. */
  lemma DefaultVlanResolved(qs: seq<Element>, id: int)
    ensures (forall i :: 0 <= i < |qs| ==> PortId(qs[i]) != id) ==> Lookup(TableOf(qs), id) == 0
    ensures forall i :: LastWithId(qs, i) && PortId(qs[i]) == id ==> Lookup(TableOf(qs), id) == VlanOf(qs[i])
  {
    TableKeys(qs);
    forall i | LastWithId(qs, i) && PortId(qs[i]) == id ensures Lookup(TableOf(qs), id) == VlanOf(qs[i]) {
      TableLastWriteWins(qs, i);
    }
  }

  // The report.

  /** One field line: the tag, then the text of the port's first child with that tag. */
  function FieldLine(p: Element, tag: string): string
  {
    "  " + tag + ": " + ChildValue(Child(Some(p), tag))
  }

  /** A field line splits back into its label, `tag` followed by a colon, and the field's text. */
  lemma FieldLineParts(p: Element, tag: string)
    ensures |FieldLine(p, tag)| == |tag| + 4 + |ChildValue(Child(Some(p), tag))|
    ensures FieldLine(p, tag)[..|tag| + 4] == "  " + tag + ": "
    ensures FieldLine(p, tag)[|tag| + 4..] == ChildValue(Child(Some(p), tag))
  {
  }

  /** The eight `std::endl`-ended writes printed for one `<Port>`. */
  function PortBlock(p: Element, table: map<int, int>): (block: seq<string>)
    ensures |block| == 8
  {
    [ "Port ID=\"" + IntToString(PortId(p)) + "\"",
      FieldLine(p, "Up"),
      FieldLine(p, "AutoNegotiationEnabled"),
      FieldLine(p, "AllowedSpeed_10M"),
      FieldLine(p, "AllowedSpeed_100M"),
      FieldLine(p, "AllowedSpeed_1G"),
      FieldLine(p, "AllowedSpeed_10G"),
      "  Default VLAN: " + IntToString(Lookup(table, PortId(p))) ]
  }

  /** The blocks `f(x)` of the elements of `xs`, one after another, in order. */
  function Concat<A, B>(xs: seq<A>, f: A -> seq<B>): seq<B>
  {
    if xs == [] then [] else Concat(xs[..|xs| - 1], f) + f(xs[|xs| - 1])
  }

  lemma ConcatStep<A, B>(xs: seq<A>, f: A -> seq<B>, n: int)
    requires 0 <= n < |xs|
    ensures Concat(xs[..n + 1], f) == Concat(xs[..n], f) + f(xs[n])
  {
    assert xs[..n + 1][..n] == xs[..n];
  }

  /** With blocks of eight, block `i` of the concatenation is `f(xs[i])`. */
  lemma {:induction false} ConcatBlockAt<A, B>(xs: seq<A>, f: A -> seq<B>, i: int)
    requires forall x :: |f(x)| == 8
    requires 0 <= i < |xs|
    ensures |Concat(xs, f)| == 8 * |xs|
    ensures Concat(xs, f)[8 * i .. 8 * i + 8] == f(xs[i])
  {
    var init := xs[..|xs| - 1];
    if i < |init| {
      ConcatBlockAt(init, f, i);
      assert init[i] == xs[i];
    } else if init != [] {
      ConcatBlockAt(init, f, 0);
    }
  }

  /** The printer of one block, for a given table. */
  function BlockPrinter(table: map<int, int>): Element -> seq<string>
  {
    p => PortBlock(p, table)
  }

  /** With blocks of eight, the concatenation has eight entries per element and block `i` is `f(xs[i])`. */
  lemma ConcatBlocks<A, B>(xs: seq<A>, f: A -> seq<B>)
    requires forall x :: |f(x)| == 8
    ensures |Concat(xs, f)| == 8 * |xs|
    ensures forall i :: 0 <= i < |xs| ==> Concat(xs, f)[8 * i .. 8 * i + 8] == f(xs[i])
  {
    if xs != [] {
      ConcatBlockAt(xs, f, 0);
    }
    forall i | 0 <= i < |xs| ensures Concat(xs, f)[8 * i .. 8 * i + 8] == f(xs[i]) {
      ConcatBlockAt(xs, f, i);
    }
  }

  /**
   * The report for the ports `ps`: exactly one block of eight writes per port, in
   * document order, block `i` being port `i`'s.
   */
  function ReportLines(ps: seq<Element>, table: map<int, int>): (lines: seq<string>)
    ensures |lines| == 8 * |ps|
    ensures forall i :: 0 <= i < |ps| ==> lines[8 * i .. 8 * i + 8] == PortBlock(ps[i], table)
  {
    var f := BlockPrinter(table);
    assert forall x :: |f(x)| == 8;
    ConcatBlocks(ps, f);
    Concat(ps, f)
  }

  /** Printing one more port appends its block. */
  lemma ReportStep(ps: seq<Element>, table: map<int, int>, n: int)
    requires 0 <= n < |ps|
    ensures ReportLines(ps[..n + 1], table) == ReportLines(ps[..n], table) + PortBlock(ps[n], table)
  {
    ConcatStep(ps, BlockPrinter(table), n);
  }

  /** The first write of a block: `Port ID="`, the port's `ID` in decimal, and a closing quote. */
  lemma PortBlockIdWrite(p: Element, table: map<int, int>)
    ensures PortBlock(p, table)[0] == "Port ID=\"" + IntToString(PortId(p)) + "\""
  {
  }

  /**
   * Each block shows the port's `ID` as read back from its text, the text of
   * each required tag in the order the validator checks them, and the VLAN
   * the table gives that `ID`.
   */
  lemma PortBlockContents(p: Element, table: map<int, int>)
    ensures |PortBlock(p, table)| == 8
    ensures AsInt(PortBlock(p, table)[0][9 .. |PortBlock(p, table)[0]| - 1]) == PortId(p)
    ensures forall k :: 0 <= k < |RequiredTags| ==> PortBlock(p, table)[k + 1] == FieldLine(p, RequiredTags[k])
    ensures PortBlock(p, table)[7] == "  Default VLAN: " + IntToString(Lookup(table, PortId(p)))
  {
    var first := PortBlock(p, table)[0];
    assert first[9 .. |first| - 1] == IntToString(PortId(p));
    AsIntOfIntToString(PortId(p));
  }

  /**
   * The loop over `<Ports>/<Port>` that prints the report: one block per
   * port, in document order.
   */
  method Report(doc: Document, table: map<int, int>) returns (lines: seq<string>)
    ensures lines == ReportLines(PortList(doc), table)
    ensures |lines| == 8 * |PortList(doc)|
    ensures forall i :: 0 <= i < |PortList(doc)| ==> lines[8 * i .. 8 * i + 8] == PortBlock(PortList(doc)[i], table)
  {
    var ports := PortList(doc);
    lines := [];
    var n := 0;
    while n < |ports|
      invariant 0 <= n <= |ports|
      invariant lines == ReportLines(ports[..n], table)
    {
      ReportStep(ports, table, n);
      lines := lines + PortBlock(ports[n], table);
      n := n + 1;
    }
    assert ports[..n] == ports;
  }

  const LoadErrorMessage: string := "Error: Configuration file not found"

  /**
   * `main`, from a load result (`None` when the file could not be read or
   * parsed) to the exit code and the writes on standard output and error.
   * No report line is printed unless the whole document is valid.
   */
  method Run(loaded: Option<Document>) returns (code: int, out: seq<string>, err: seq<string>)
    ensures loaded.None? ==> code == 1 && out == [] && err == [LoadErrorMessage]
    ensures loaded.Some? && Validate(loaded.value).Fail? ==>
              code == 1 && out == [] && err == [Message(Validate(loaded.value).violation)]
    ensures code == 0 <==> loaded.Some? && WellFormed(loaded.value)
    ensures code == 0 ==>
              err == [] && out == ReportLines(PortList(loaded.value), TableOf(DefPortList(loaded.value)))
  {
    if loaded.None? {
      return 1, [], [LoadErrorMessage];
    }
    var doc := loaded.value;
    var outcome := Validate(doc);
    if outcome.Fail? {
      return 1, [], [Message(outcome.violation)];
    }
    var table := BuildDefaultVlanTable(doc);
    out := Report(doc, table);
    code, err := 0, [];
  }
}
