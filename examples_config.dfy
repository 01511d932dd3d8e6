/**
 * Small concrete configurations and what the program does with them.
 */
module ConfigExamples {
  import opened XmlTree
  import opened IntText
  import opened ConfigValidator
  import opened ConfigReport

  function Leaf(name: string, text: string): Element
  {
    Element(name, map[], [], text)
  }

  /** The six required fields of a `<Port>`, in schema order. */
  const AllFields: seq<Element> :=
    [Leaf("Up", "true"), Leaf("AutoNegotiationEnabled", "false"),
     Leaf("AllowedSpeed_10M", "true"), Leaf("AllowedSpeed_100M", "true"),
     Leaf("AllowedSpeed_1G", "true"), Leaf("AllowedSpeed_10G", "false")]

  function PortElement(id: string, fields: seq<Element>): Element
  {
    Element("Port", map["ID" := id], fields, "")
  }

  /** A configuration with the given `<Port>` entries and one `<defVlans>` entry, `ID` 1 with the given `vlan` text. */
  function SampleDoc(ports: seq<Element>, vlan: string): Document
  {
    var defPort := Element("port", map["ID" := "1"], [Leaf("vlan", vlan)], "");
    var vlans := Element("Vlans", map[], [Element("defVlans", map[], [defPort], "")], "");
    Document([Element("ControlSystem", map[], [Element("Ports", map[], ports, ""), vlans], "")])
  }

  lemma {:induction false} FullPortWellFormed(id: string)
    ensures PortWellFormed(PortElement(id, AllFields))
  {
    var p := PortElement(id, AllFields);
    forall k | 0 <= k < |RequiredTags| ensures HasChild(p, RequiredTags[k]) {
      assert p.children[k].name == RequiredTags[k];
    }
  }

  lemma {:induction false} SampleDocPaths(ports: seq<Element>, vlan: string)
    ensures var doc := SampleDoc(ports, vlan);
            && PortsNode(doc).Some?
            && PortList(doc) == Named(ports, "Port")
            && VlansNode(doc).Some? && DefVlansNode(doc).Some?
            && DefPortList(doc) == [Element("port", map["ID" := "1"], [Leaf("vlan", vlan)], "")]
  {
    var doc := SampleDoc(ports, vlan);
    var root := doc.nodes[0];
    assert Root(doc) == Some(root);
    assert root.children[1].name == "Vlans";
    assert root.children[0].name != "Vlans";
    assert PortsNode(doc) == Some(root.children[0]);
    assert VlansNode(doc) == Some(root.children[1]);
  }

  lemma {:induction false} SmallNumbers()
    ensures AsInt("1") == 1 && AsInt("2") == 2 && AsInt("100") == 100
    ensures IntToString(1) == "1" && IntToString(100) == "100" && IntToString(0) == "0"
  {
    assert NatToString(1) == "1";
    assert NatToString(10) == NatToString(1) + ['0'] == "10";
    assert NatToString(100) == NatToString(10) + ['0'] == "100";
    AsIntOfIntToString(1);
    AsIntOfIntToString(100);
    assert NatToString(2) == "2";
    AsIntOfIntToString(2);
    assert NatToString(0) == "0";
  }

  /** The two VLAN lines of the example, spelled out. */
  lemma VlanLines()
    ensures "  Default VLAN: " + "100" == "  Default VLAN: 100"
    ensures "  Default VLAN: " + "0" == "  Default VLAN: 0"
  {
  }

  lemma {:induction false} SamplePaths(p1: Element, p2: Element)
    requires p1.name == "Port" && p2.name == "Port"
    ensures var doc := SampleDoc([p1, p2], "100");
            && PortsNode(doc).Some? && VlansNode(doc).Some? && DefVlansNode(doc).Some?
            && PortList(doc) == [p1, p2]
            && DefPortList(doc) == [Element("port", map["ID" := "1"], [Leaf("vlan", "100")], "")]
  {
    SampleDocPaths([p1, p2], "100");
    assert Named([p1, p2], "Port") == [p1, p2];
  }

  lemma {:induction false} SampleDefPortWellFormed()
    ensures DefPortWellFormed(Element("port", map["ID" := "1"], [Leaf("vlan", "100")], ""))
  {
    var q := Element("port", map["ID" := "1"], [Leaf("vlan", "100")], "");
    assert q.children[0].name == "vlan";
  }

  /** A document whose sections are present and whose entries are all well formed passes. */
  lemma ValidWhen(doc: Document, ps: seq<Element>, qs: seq<Element>)
    requires PortsNode(doc).Some? && VlansNode(doc).Some? && DefVlansNode(doc).Some?
    requires PortList(doc) == ps && ps != [] && forall i :: 0 <= i < |ps| ==> PortWellFormed(ps[i])
    requires DefPortList(doc) == qs && qs != [] && forall i :: 0 <= i < |qs| ==> DefPortWellFormed(qs[i])
    ensures Validate(doc) == Pass
  {
    assert Root(doc).Some?;
  }

  /** Two well-formed ports and a `<defVlans>` entry with VLAN 100 make a valid document. */
  lemma {:induction false} TwoPortsValid(p1: Element, p2: Element)
    requires p1.name == "Port" && p2.name == "Port" && PortWellFormed(p1) && PortWellFormed(p2)
    ensures Validate(SampleDoc([p1, p2], "100")) == Pass
  {
    var doc := SampleDoc([p1, p2], "100");
    var ps, qs := [p1, p2], DefPortList(doc);
    SamplePaths(p1, p2);
    SampleDefPortWellFormed();
    assert forall i :: 0 <= i < |ps| ==> PortWellFormed(ps[i]);
    assert qs != [] && forall i :: 0 <= i < |qs| ==> DefPortWellFormed(qs[i]);
    ValidWhen(doc, ps, qs);
  }

  lemma {:induction false} SampleTable()
    ensures TableOf([Element("port", map["ID" := "1"], [Leaf("vlan", "100")], "")]) == map[1 := 100]
  {
    var q := Element("port", map["ID" := "1"], [Leaf("vlan", "100")], "");
    assert q.children[0].name == "vlan";
    assert [q][..0] == [];
    SmallNumbers();
  }

  /** The report of two ports: two blocks, each ending with its port's VLAN. */
  lemma TwoPortReport(ps: seq<Element>, table: map<int, int>)
    requires |ps| == 2
    ensures var out := ReportLines(ps, table);
            && |out| == 16
            && out[7] == "  Default VLAN: " + IntToString(Lookup(table, PortId(ps[0])))
            && out[15] == "  Default VLAN: " + IntToString(Lookup(table, PortId(ps[1])))
  {
    var out := ReportLines(ps, table);
    assert out[7] == out[0..8][7] == PortBlock(ps[0], table)[7];
    assert out[15] == out[8..16][7] == PortBlock(ps[1], table)[7];
  }

  /** With the table `{1: 100}`, port 1 gets VLAN 100 and port 2 the default 0. */
  lemma {:induction false} SampleLookups(p1: Element, p2: Element)
    requires "ID" in p1.attrs && p1.attrs["ID"] == "1" && "ID" in p2.attrs && p2.attrs["ID"] == "2"
    ensures IntToString(Lookup(map[1 := 100], PortId(p1))) == "100"
    ensures IntToString(Lookup(map[1 := 100], PortId(p2))) == "0"
  {
    SmallNumbers();
    assert PortId(p1) == 1 && PortId(p2) == 2;
  }

  /**
   * Two well-formed ports with `ID`s 1 and 2, a default VLAN of 100 for
   * port 1 only: the document is valid, its report has two blocks, port 1 is
   * printed with VLAN 100 and port 2 with the default 0.
   */
  lemma {:induction false} DefaultVlanScenario(p1: Element, p2: Element)
    requires p1.name == "Port" && p2.name == "Port" && PortWellFormed(p1) && PortWellFormed(p2)
    requires p1.attrs["ID"] == "1" && p2.attrs["ID"] == "2"
    ensures var doc := SampleDoc([p1, p2], "100");
            var out := ReportLines(PortList(doc), TableOf(DefPortList(doc)));
            && Validate(doc) == Pass
            && |out| == 16
            && out[7] == "  Default VLAN: 100"
            && out[15] == "  Default VLAN: 0"
  {
    TwoPortsValid(p1, p2);
    SamplePaths(p1, p2);
    SampleTable();
    SampleLookups(p1, p2);
    TwoPortReport([p1, p2], map[1 := 100]);
    VlanLines();
  }

  /** The scenario above with ports built from all six fields. */
  lemma DefaultVlanExample()
    ensures var doc := SampleDoc([PortElement("1", AllFields), PortElement("2", AllFields)], "100");
            var out := ReportLines(PortList(doc), TableOf(DefPortList(doc)));
            && Validate(doc) == Pass
            && |out| == 16
            && out[7] == "  Default VLAN: 100"
            && out[15] == "  Default VLAN: 0"
  {
    FullPortWellFormed("1");
    FullPortWellFormed("2");
    DefaultVlanScenario(PortElement("1", AllFields), PortElement("2", AllFields));
  }

  /** A `<Port>` whose first missing tag is `<AllowedSpeed_10G>` is reported by that tag. */
  lemma {:induction false} MissingTagScenario(p: Element)
    requires p.name == "Port" && "ID" in p.attrs && FirstMissingTag(p, RequiredTags, 5)
    ensures Validate(SampleDoc([p], "100")) == Fail(PortMissingTag("AllowedSpeed_10G"))
  {
    SampleDocPaths([p], "100");
    assert Named([p], "Port") == [p];
    MissingTagReported(SampleDoc([p], "100"), 0, 5);
  }

  lemma {:induction false} FiveFieldsMissTenGig()
    ensures FirstMissingTag(PortElement("1", AllFields[..5]), RequiredTags, 5)
  {
    var p := PortElement("1", AllFields[..5]);
    forall j | 0 <= j < 5 ensures HasChild(p, RequiredTags[j]) {
      assert p.children[j].name == RequiredTags[j];
    }
    forall i | 0 <= i < 5 ensures p.children[i].name != "AllowedSpeed_10G" {
      assert p.children[i] == AllFields[i];
    }
  }

  lemma MissingTagHead()
    ensures ErrorPrefix + "<Port> missing tag <" == "XML error: <Port> missing tag <"
  {
  }

  lemma MissingTagText()
    ensures "XML error: <Port> missing tag <" + "AllowedSpeed_10G" + ">" == "XML error: <Port> missing tag <AllowedSpeed_10G>"
  {
  }

  lemma MissingTagMessage()
    ensures Message(PortMissingTag("AllowedSpeed_10G")) == "XML error: <Port> missing tag <AllowedSpeed_10G>"
  {
    var head := "<Port> missing tag <";
    MissingTagHead();
    MissingTagText();
    assert ErrorPrefix + (head + "AllowedSpeed_10G" + ">") == (ErrorPrefix + head) + "AllowedSpeed_10G" + ">";
  }

  /** A `<Port>` without `<AllowedSpeed_10G>` is reported by that tag's name. */
  lemma MissingTagExample()
    ensures var doc := SampleDoc([PortElement("1", AllFields[..5])], "100");
            Validate(doc).Fail? &&
            Message(Validate(doc).violation) == "XML error: <Port> missing tag <AllowedSpeed_10G>"
  {
    FiveFieldsMissTenGig();
    MissingTagScenario(PortElement("1", AllFields[..5]));
    MissingTagMessage();
  }

  /** Behind a well-formed `<Port>`, an empty `<vlan></vlan>` is reported as a tag without value. */
  lemma {:induction false} EmptyVlanScenario(p: Element)
    requires p.name == "Port" && PortWellFormed(p)
    ensures Validate(SampleDoc([p], "")) == Fail(EmptyVlan)
  {
    var doc := SampleDoc([p], "");
    SampleDocPaths([p], "");
    assert Named([p], "Port") == [p];
    var q := DefPortList(doc)[0];
    assert q.children[0].name == "vlan";
    assert Child(Some(q), "vlan") == Some(q.children[0]);
    FirstBadDefPortReported(doc, 0);
  }

  lemma EmptyVlanExample()
    ensures Validate(SampleDoc([PortElement("1", AllFields)], "")) == Fail(EmptyVlan)
  {
    FullPortWellFormed("1");
    EmptyVlanScenario(PortElement("1", AllFields));
  }

  /** With both `<Ports>` and `<Vlans>` missing, the earlier rule is the one reported. */
  lemma MissingPortsExample()
    ensures Validate(Document([Element("ControlSystem", map[], [], "")])) == Fail(NoPorts)
  {
  }
}
