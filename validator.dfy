/**
 * The structural check of a switch configuration (`validate`).
 *
 * The checks run in a fixed order and the first one that fails decides the
 * result. The source throws an exception carrying a message; here the result
 * is an `Outcome` naming the rule that failed, and `Message` gives the text
 * the exception carries.
 */
module ConfigValidator {
  import opened XmlTree

  /** The six children every `<Port>` must have, in the order they are checked. */
  const RequiredTags: seq<string> :=
    ["Up", "AutoNegotiationEnabled", "AllowedSpeed_10M", "AllowedSpeed_100M", "AllowedSpeed_1G", "AllowedSpeed_10G"]

  datatype Violation =
    | NoRoot
    | NoPorts
    | NoPortEntries
    | PortNoId
    | PortMissingTag(tag: string)
    | NoVlans
    | NoDefVlans
    | NoDefPortEntries
    | DefPortNoId
    | NoVlanTag
    | EmptyVlan

  datatype Outcome = Pass | Fail(violation: Violation)

  /** The prefix every exception text of `validate` starts with. */
  const ErrorPrefix: string := "XML error: "

  /** What the exception text says after the prefix, for each violation. */
  function Detail(v: Violation): (d: string)
    ensures |d| > 0
  {
    match v
    case NoRoot => "<ControlSystem> node missing"
    case NoPorts => "<Ports> node missing"
    case NoPortEntries => "no <Port> entries inside <Ports>"
    case PortNoId => "<Port> is missing ID attribute"
    case PortMissingTag(tag) => "<Port> missing tag <" + tag + ">"
    case NoVlans => "<Vlans> node missing"
    case NoDefVlans => "<defVlans> node missing"
    case NoDefPortEntries => "no <port> entries inside <defVlans>"
    case DefPortNoId => "<Port> is missing ID attribute"
    case NoVlanTag => "<vlan> tag missing"
    case EmptyVlan => "<vlan> tag has no value"
  }

  /** The text of the exception thrown for each violation: the prefix, then the detail. */
  function Message(v: Violation): (m: string)
    ensures |m| > |ErrorPrefix| && m[..|ErrorPrefix|] == ErrorPrefix
    ensures m[|ErrorPrefix|..] == Detail(v)
  {
    ErrorPrefix + Detail(v)
  }

  // The nodes the validator and the report reach from the document.

  function Root(doc: Document): Option<Element> { DocChild(doc, "ControlSystem") }

  function PortsNode(doc: Document): Option<Element> { Child(Root(doc), "Ports") }

  function PortList(doc: Document): seq<Element> { Children(PortsNode(doc), "Port") }

  function VlansNode(doc: Document): Option<Element> { Child(Root(doc), "Vlans") }

  function DefVlansNode(doc: Document): Option<Element> { Child(VlansNode(doc), "defVlans") }

  function DefPortList(doc: Document): seq<Element> { Children(DefVlansNode(doc), "port") }

  // The rules, stated without regard to the order they are checked in.

  ghost predicate PortWellFormed(p: Element)
  {
    "ID" in p.attrs && forall k :: 0 <= k < |RequiredTags| ==> HasChild(p, RequiredTags[k])
  }

  ghost predicate DefPortWellFormed(q: Element)
  {
    "ID" in q.attrs && HasChild(q, "vlan") && ChildValue(Child(Some(q), "vlan")) != ""
  }

  ghost predicate WellFormed(doc: Document)
  {
    && Root(doc).Some?
    && PortsNode(doc).Some?
    && PortList(doc) != []
    && (forall i :: 0 <= i < |PortList(doc)| ==> PortWellFormed(PortList(doc)[i]))
    && VlansNode(doc).Some?
    && DefVlansNode(doc).Some?
    && DefPortList(doc) != []
    && (forall i :: 0 <= i < |DefPortList(doc)| ==> DefPortWellFormed(DefPortList(doc)[i]))
  }

  /** `tags[k]` is the first of `tags` that `p` has no child for. */
  ghost predicate FirstMissingTag(p: Element, tags: seq<string>, k: int)
  {
    0 <= k < |tags| && !HasChild(p, tags[k]) && forall j :: 0 <= j < k ==> HasChild(p, tags[j])
  }

  ghost predicate PortsWellFormedBefore(ps: seq<Element>, i: int)
    requires i <= |ps|
  {
    forall j :: 0 <= j < i ==> PortWellFormed(ps[j])
  }

  ghost predicate DefPortsWellFormedBefore(qs: seq<Element>, i: int)
    requires i <= |qs|
  {
    forall j :: 0 <= j < i ==> DefPortWellFormed(qs[j])
  }

  // The checks, in the order the source makes them.

  /** The loop over the required tags of one `<Port>`: the first missing tag is reported. */
  function CheckTags(p: Element, tags: seq<string>): (r: Outcome)
    ensures r.Pass? <==> forall k :: 0 <= k < |tags| ==> HasChild(p, tags[k])
    ensures forall k :: FirstMissingTag(p, tags, k) ==> r == Fail(PortMissingTag(tags[k]))
    ensures r.Fail? ==> r.violation.PortMissingTag? && r.violation.tag in tags
  {
    if tags == [] then Pass
    else if Child(Some(p), tags[0]).None? then Fail(PortMissingTag(tags[0]))
    else
      var r := CheckTags(p, tags[1..]);
      assert forall k :: FirstMissingTag(p, tags, k) ==> k > 0 && FirstMissingTag(p, tags[1..], k - 1) by {
        forall k | FirstMissingTag(p, tags, k)
          ensures k > 0 && FirstMissingTag(p, tags[1..], k - 1)
        {
          assert HasChild(p, tags[0]);
          if k > 0 {
            forall j | 0 <= j < k - 1 ensures HasChild(p, tags[1..][j]) {
              assert tags[1..][j] == tags[j + 1];
            }
          }
        }
      }
      assert r.Pass? ==> forall k :: 0 <= k < |tags| ==> HasChild(p, tags[k]) by {
        if r.Pass? {
          forall k | 0 < k < |tags| ensures HasChild(p, tags[k]) {
            assert tags[k] == tags[1..][k - 1];
          }
        }
      }
      r
  }

  /** The checks on one `<Port>`: its `ID` attribute, then its required tags. */
  function ValidatePort(p: Element): (r: Outcome)
    ensures r.Pass? <==> PortWellFormed(p)
    ensures "ID" !in p.attrs ==> r == Fail(PortNoId)
    ensures forall k :: "ID" in p.attrs && FirstMissingTag(p, RequiredTags, k) ==> r == Fail(PortMissingTag(RequiredTags[k]))
    ensures r.Fail? ==> r.violation.PortNoId? || (r.violation.PortMissingTag? && r.violation.tag in RequiredTags)
  {
    if "ID" !in p.attrs then Fail(PortNoId) else CheckTags(p, RequiredTags)
  }

  /** The loop over the `<Port>` entries: the first ill-formed entry decides the result. */
  function ValidatePorts(ps: seq<Element>): (r: Outcome)
    ensures r.Pass? <==> forall i :: 0 <= i < |ps| ==> PortWellFormed(ps[i])
    ensures forall i :: 0 <= i < |ps| && PortsWellFormedBefore(ps, i) && !PortWellFormed(ps[i]) ==> r == ValidatePort(ps[i])
    ensures r.Fail? ==> r.violation.PortNoId? || (r.violation.PortMissingTag? && r.violation.tag in RequiredTags)
  {
    if ps == [] then Pass
    else if ValidatePort(ps[0]).Fail? then ValidatePort(ps[0])
    else
      var r := ValidatePorts(ps[1..]);
      assert forall i :: 0 < i < |ps| && PortsWellFormedBefore(ps, i) ==> PortsWellFormedBefore(ps[1..], i - 1) by {
        forall i | 0 < i < |ps| && PortsWellFormedBefore(ps, i) ensures PortsWellFormedBefore(ps[1..], i - 1) {
          forall j | 0 <= j < i - 1 ensures PortWellFormed(ps[1..][j]) {
            assert ps[1..][j] == ps[j + 1];
          }
        }
      }
      assert r.Pass? ==> forall i :: 0 <= i < |ps| ==> PortWellFormed(ps[i]) by {
        if r.Pass? {
          forall i | 0 < i < |ps| ensures PortWellFormed(ps[i]) {
            assert ps[i] == ps[1..][i - 1];
          }
        }
      }
      r
  }

  /** The checks on one `<port>` of `<defVlans>`: `ID`, then a `<vlan>` child, then its text. */
  function ValidateDefPort(q: Element): (r: Outcome)
    ensures r.Pass? <==> DefPortWellFormed(q)
    ensures "ID" !in q.attrs ==> r == Fail(DefPortNoId)
    ensures "ID" in q.attrs && !HasChild(q, "vlan") ==> r == Fail(NoVlanTag)
    ensures "ID" in q.attrs && HasChild(q, "vlan") && ChildValue(Child(Some(q), "vlan")) == "" ==> r == Fail(EmptyVlan)
  {
    if "ID" !in q.attrs then Fail(DefPortNoId)
    else
      var vlan := Child(Some(q), "vlan");
      if vlan.None? then Fail(NoVlanTag)
      else if ChildValue(vlan) == "" then Fail(EmptyVlan)
      else Pass
  }

  /** The loop over the `<port>` entries of `<defVlans>`: the first ill-formed entry decides the result. */
  function ValidateDefPorts(qs: seq<Element>): (r: Outcome)
    ensures r.Pass? <==> forall i :: 0 <= i < |qs| ==> DefPortWellFormed(qs[i])
    ensures forall i :: 0 <= i < |qs| && DefPortsWellFormedBefore(qs, i) && !DefPortWellFormed(qs[i]) ==> r == ValidateDefPort(qs[i])
    ensures r.Fail? ==> (r.violation.DefPortNoId? || r.violation.NoVlanTag? || r.violation.EmptyVlan?)
  {
    if qs == [] then Pass
    else if ValidateDefPort(qs[0]).Fail? then ValidateDefPort(qs[0])
    else
      var r := ValidateDefPorts(qs[1..]);
      assert forall i :: 0 < i < |qs| && DefPortsWellFormedBefore(qs, i) ==> DefPortsWellFormedBefore(qs[1..], i - 1) by {
        forall i | 0 < i < |qs| && DefPortsWellFormedBefore(qs, i) ensures DefPortsWellFormedBefore(qs[1..], i - 1) {
          forall j | 0 <= j < i - 1 ensures DefPortWellFormed(qs[1..][j]) {
            assert qs[1..][j] == qs[j + 1];
          }
        }
      }
      assert r.Pass? ==> forall i :: 0 <= i < |qs| ==> DefPortWellFormed(qs[i]) by {
        if r.Pass? {
          forall i | 0 < i < |qs| ensures DefPortWellFormed(qs[i]) {
            assert qs[i] == qs[1..][i - 1];
          }
        }
      }
      r
  }

  /** `validate(doc)`: `Pass` exactly when every rule holds, otherwise the first rule that fails. */
  function Validate(doc: Document): (r: Outcome)
    ensures r.Pass? <==> WellFormed(doc)
  {
    if Root(doc).None? then Fail(NoRoot)
    else if PortsNode(doc).None? then Fail(NoPorts)
    else if PortList(doc) == [] then Fail(NoPortEntries)
    else if ValidatePorts(PortList(doc)).Fail? then ValidatePorts(PortList(doc))
    else if VlansNode(doc).None? then Fail(NoVlans)
    else if DefVlansNode(doc).None? then Fail(NoDefVlans)
    else if DefPortList(doc) == [] then Fail(NoDefPortEntries)
    else ValidateDefPorts(DefPortList(doc))
  }

  /** The violations `validate` can report: a missing tag is always one of the required ones. */
  predicate Reportable(v: Violation)
  {
    v.PortMissingTag? ==> v.tag in RequiredTags
  }

  /** Only the missing-tag detail opens with `<Port> m`. */
  lemma DetailMarksMissingTag(v: Violation)
    ensures |Detail(v)| > 7
    ensures v.PortMissingTag? <==> Detail(v)[1] == 'P' && Detail(v)[7] == 'm'
  {
    match v
    case PortMissingTag(tag) =>
      assert Detail(v) == "<Port> missing tag <" + tag + ">";
    case _ =>
  }

  /**
   * The messages tell every two reportable violations apart except one pair:
   * a `<port>` of `<defVlans>` without `ID` reuses the text for a `<Port>` without `ID`.
   */
  lemma MessagesTellViolationsApart(v: Violation, w: Violation)
    requires Reportable(v) && Reportable(w)
    ensures Message(v) == Message(w) <==> v == w || ((v.PortNoId? || v.DefPortNoId?) && (w.PortNoId? || w.DefPortNoId?))
  {
    if Message(v) == Message(w) {
      var d := Detail(v);
      assert d == Detail(w);
      DetailMarksMissingTag(v);
      DetailMarksMissingTag(w);
      if v.PortMissingTag? && w.PortMissingTag? {
        var prefix := "<Port> missing tag <";
        assert d == prefix + v.tag + ">" == prefix + w.tag + ">";
        assert v.tag == d[|prefix|..|d| - 1] == w.tag;
      }
    }
  }

  // What `validate` reports, rule by rule.

  /**
   * The structural rules outside the two entry loops: each error is returned
   * exactly when every rule before it holds and its own fails, whatever else
   * the document holds or lacks.
   */
  lemma ValidateStructuralErrors(doc: Document)
    ensures Validate(doc) == Fail(NoRoot) <==> Root(doc).None?
    ensures Validate(doc) == Fail(NoPorts) <==> Root(doc).Some? && PortsNode(doc).None?
    ensures Validate(doc) == Fail(NoPortEntries) <==> PortsNode(doc).Some? && PortList(doc) == []
    ensures Validate(doc) == Fail(NoVlans) <==>
              && PortList(doc) != []
              && (forall i :: 0 <= i < |PortList(doc)| ==> PortWellFormed(PortList(doc)[i]))
              && VlansNode(doc).None?
    ensures Validate(doc) == Fail(NoDefVlans) <==>
              && PortList(doc) != []
              && (forall i :: 0 <= i < |PortList(doc)| ==> PortWellFormed(PortList(doc)[i]))
              && VlansNode(doc).Some? && DefVlansNode(doc).None?
    ensures Validate(doc) == Fail(NoDefPortEntries) <==>
              && PortList(doc) != []
              && (forall i :: 0 <= i < |PortList(doc)| ==> PortWellFormed(PortList(doc)[i]))
              && DefVlansNode(doc).Some? && DefPortList(doc) == []
  {
    var ps, qs := PortList(doc), DefPortList(doc);
    assert PortsNode(doc).Some? || VlansNode(doc).Some? ==> Root(doc).Some?;
    assert DefVlansNode(doc).Some? ==> VlansNode(doc).Some?;
    assert ps != [] ==> PortsNode(doc).Some?;
    assert qs != [] ==> DefVlansNode(doc).Some?;
    var pr, dr := ValidatePorts(ps), ValidateDefPorts(qs);
    assert pr.Pass? <==> forall i :: 0 <= i < |ps| ==> PortWellFormed(ps[i]);
    assert pr.Fail? ==> pr.violation.PortNoId? || pr.violation.PortMissingTag?;
    assert dr.Fail? ==> dr.violation.DefPortNoId? || dr.violation.NoVlanTag? || dr.violation.EmptyVlan?;
  }

  /** The first ill-formed `<Port>`, in document order, decides the error once the sections before it are present. */
  lemma FirstBadPortReported(doc: Document, i: int)
    requires 0 <= i < |PortList(doc)|
    requires PortsWellFormedBefore(PortList(doc), i) && !PortWellFormed(PortList(doc)[i])
    ensures Validate(doc) == ValidatePort(PortList(doc)[i])
    ensures "ID" !in PortList(doc)[i].attrs ==> Validate(doc) == Fail(PortNoId)
  {
    var ps := PortList(doc);
    assert PortsNode(doc).Some? && Root(doc).Some?;
    assert ValidatePorts(ps) == ValidatePort(ps[i]);
  }

  /** A `<Port>` whose `ID` is present is reported by its first missing tag. */
  lemma MissingTagReported(doc: Document, i: int, k: int)
    requires 0 <= i < |PortList(doc)| && PortsWellFormedBefore(PortList(doc), i)
    requires "ID" in PortList(doc)[i].attrs && FirstMissingTag(PortList(doc)[i], RequiredTags, k)
    ensures Validate(doc) == Fail(PortMissingTag(RequiredTags[k]))
  {
    FirstBadPortReported(doc, i);
  }

  /** Once every `<Port>` is well formed, the first ill-formed `<port>` of `<defVlans>` decides the error. */
  lemma FirstBadDefPortReported(doc: Document, i: int)
    requires PortList(doc) != [] && forall j :: 0 <= j < |PortList(doc)| ==> PortWellFormed(PortList(doc)[j])
    requires 0 <= i < |DefPortList(doc)|
    requires DefPortsWellFormedBefore(DefPortList(doc), i) && !DefPortWellFormed(DefPortList(doc)[i])
    ensures Validate(doc) == ValidateDefPort(DefPortList(doc)[i])
  {
  }

  /** A failing `<Port>` loop fails at its first ill-formed entry. */
  lemma {:induction false} PortsFailureHasCause(ps: seq<Element>)
    ensures ValidatePorts(ps).Fail? ==>
              exists i :: 0 <= i < |ps| && PortsWellFormedBefore(ps, i) && !PortWellFormed(ps[i]) &&
                          ValidatePorts(ps) == ValidatePort(ps[i])
  {
    if ValidatePorts(ps).Fail? {
      var i :| 0 <= i < |ps| && !PortWellFormed(ps[i]);
      FirstBadPortExists(ps, i);
    }
  }

  /** A failing `<defVlans>` loop fails at its first ill-formed entry. */
  lemma {:induction false} DefPortsFailureHasCause(qs: seq<Element>)
    ensures ValidateDefPorts(qs).Fail? ==>
              exists i :: 0 <= i < |qs| && DefPortsWellFormedBefore(qs, i) && !DefPortWellFormed(qs[i]) &&
                          ValidateDefPorts(qs) == ValidateDefPort(qs[i])
  {
    if ValidateDefPorts(qs).Fail? {
      var i :| 0 <= i < |qs| && !DefPortWellFormed(qs[i]);
      FirstBadDefPortExists(qs, i);
    }
  }

  /** If some entry breaks a rule, some entry is the first to break it. */
  lemma {:induction false} FirstBadPortExists(ps: seq<Element>, i: int)
    requires 0 <= i < |ps| && !PortWellFormed(ps[i])
    ensures exists f :: 0 <= f <= i && PortsWellFormedBefore(ps, f) && !PortWellFormed(ps[f])
  {
    if PortsWellFormedBefore(ps, i) {
    } else {
      var j :| 0 <= j < i && !PortWellFormed(ps[j]);
      FirstBadPortExists(ps, j);
    }
  }

  lemma {:induction false} FirstBadDefPortExists(qs: seq<Element>, i: int)
    requires 0 <= i < |qs| && !DefPortWellFormed(qs[i])
    ensures exists f :: 0 <= f <= i && DefPortsWellFormedBefore(qs, f) && !DefPortWellFormed(qs[f])
  {
    if DefPortsWellFormedBefore(qs, i) {
    } else {
      var j :| 0 <= j < i && !DefPortWellFormed(qs[j]);
      FirstBadDefPortExists(qs, j);
    }
  }

  /**
   * The converse of the two lemmas above: an entry-level error always comes
   * from the first ill-formed entry of its section.
   */
  lemma EntryErrorsHaveACause(doc: Document)
    ensures Validate(doc).Fail? && (Validate(doc).violation.PortNoId? || Validate(doc).violation.PortMissingTag?) ==>
              exists i :: 0 <= i < |PortList(doc)| && PortsWellFormedBefore(PortList(doc), i) &&
                          !PortWellFormed(PortList(doc)[i]) && Validate(doc) == ValidatePort(PortList(doc)[i])
    ensures Validate(doc).Fail? && (Validate(doc).violation.DefPortNoId? || Validate(doc).violation.NoVlanTag? || Validate(doc).violation.EmptyVlan?) ==>
              exists i :: 0 <= i < |DefPortList(doc)| && DefPortsWellFormedBefore(DefPortList(doc), i) &&
                          !DefPortWellFormed(DefPortList(doc)[i]) && Validate(doc) == ValidateDefPort(DefPortList(doc)[i])
  {
    var r := Validate(doc);
    var ps, qs := PortList(doc), DefPortList(doc);
    var pr, dr := ValidatePorts(ps), ValidateDefPorts(qs);
    assert pr.Fail? ==> pr.violation.PortNoId? || pr.violation.PortMissingTag?;
    assert dr.Fail? ==> dr.violation.DefPortNoId? || dr.violation.NoVlanTag? || dr.violation.EmptyVlan?;
    PortsFailureHasCause(ps);
    DefPortsFailureHasCause(qs);
    if r.Fail? && (r.violation.PortNoId? || r.violation.PortMissingTag?) {
      assert r == pr;
    }
    if r.Fail? && (r.violation.DefPortNoId? || r.violation.NoVlanTag? || r.violation.EmptyVlan?) {
      assert r == dr;
    }
  }
}
