# Switch configuration validator and report

A model of `Task1/task1.cpp`, a small tool that reads the configuration of a
network switch. The configuration is an XML tree: a `<ControlSystem>` root
holds `<Ports>` with one `<Port ID="…">` per port, and `<Vlans>/<defVlans>`
with one `<port ID="…"><vlan>…</vlan></port>` entry per default VLAN. The
program does three things:

- `validate` runs an ordered series of presence checks and stops at the
  first one that fails, with that rule's error message.
- A loop fills the default-VLAN table from the `<defVlans>` entries. A later
  entry with the same `ID` overwrites an earlier one.
- A second loop prints one block of eight writes, each ended by `std::endl`,
  per `<Port>`, in document order.
  The block holds the port's `ID`, its six fields and its default VLAN. An
  `ID` missing from the table shows VLAN 0.

The files:

- `xml_tree.dfy` (module `XmlTree`): the parsed tree the program walks.
  Elements have a name, attributes, ordered children and a text value. A
  lookup that finds nothing is `None`, and it behaves like pugixml's empty
  node: it has no children and its text is `""`.
- `int_text.dfy` (module `IntText`):
  - `AsInt` reads an attribute or a text as a 32-bit integer (`as_int()`).
  - `IntToString` writes an `int` in decimal (`std::cout << n`).
- `validator.dfy` (module `ConfigValidator`): `validate`, written as
  functions that return `Pass` or `Fail(violation)`. `Message(violation)`
  is the exact text printed on standard error.
- `report.dfy` (module `ConfigReport`):
  - The table build and the report are methods with loops, proved against
    the functions `TableOf` and `ReportLines`.
  - `Run` is `main` after loading. It returns the exit code, and standard output
    and standard error as sequences of `std::endl`-ended writes.
- `examples_config.dfy` (module `ConfigExamples`): small configurations and
  what the program does with each.

The same error text is used for two different rules: a `<Port>` without
`ID` and a `<defVlans>/<port>` without `ID`, both "`<Port>` is missing ID
attribute". The model keeps this reuse. `MessagesTellViolationsApart` proves
that this is the only pair of violations whose messages coincide.

## Model

| member | source | states |
|---|---|---|
| XmlTree.Named | Task1/task1.cpp:21 | `children(name)` holds exactly the children with that tag, and no other element. It is empty iff no child has that tag. |
| XmlTree.NamedAppend | Task1/task1.cpp:21 | `children(name)` of a concatenation is `children(name)` of each part, in the same order. With `NamedOne`, this fixes both the order and the multiplicity of the result: document order. |
| XmlTree.NamedOne | Task1/task1.cpp:21 | A single element is kept iff it carries the tag. |
| XmlTree.FirstNamed | Task1/task1.cpp:9 | `child(name)` is `None` iff no element has that tag. Otherwise it is the element at the first index with that tag. |
| XmlTree.FirstNamedIsHeadOfNamed | Task1/task1.cpp:9-21 | A consistency fact relating the two lookups, `child(name)` (line 9) and `children(name)` (line 21): the first is the head of the second, or `None` when that list is empty. |
| IntText.AsInt | Task1/task1.cpp:115-116 | `as_int()` always lies in the 32-bit range. A leading `-` never gives a positive value. Text with no sign and no leading digit reads as 0. |
| IntText.IntToString | Task1/task1.cpp:123 | `std::cout << id` prints a non-empty text, which starts with `-` iff the value is negative. |
| IntText.IntToStringDigits | Task1/task1.cpp:123 | After the optional `-`, `std::cout << x` prints only decimal digits, with no leading zero, and they spell `|x|`. |
| IntText.DecimalValueOfNatToString | Task1/task1.cpp:123 | The digits printed for a natural number read back as that number. |
| IntText.AsIntOfIntToString | Task1/task1.cpp:122-123 | For every 32-bit `int`, printing it and reading the text back with `as_int()` gives the same value. |
| ConfigValidator.Detail | Task1/task1.cpp:12-85 | The text after `"XML error: "` at each throw site (lines 12, 18, 24, 31, 46, 54, 60, 66, 73, 79, 85), for the violation thrown there. It is never empty. |
| ConfigValidator.Message | Task1/task1.cpp:12-85 | The exact string thrown at each site, and printed by `e.what()` at line 106. It splits back into the prefix `"XML error: "` and the violation's detail. |
| ConfigValidator.DetailMarksMissingTag | Task1/task1.cpp:46 | Only the missing-tag text of line 46 has `P` at index 1 and `m` at index 7 of its detail, so it cannot collide with any other site's text. |
| ConfigValidator.CheckTags | Task1/task1.cpp:42-48 | Passes iff every listed tag has a child. Otherwise it fails with the first missing tag in list order, and the failure always names a listed tag. |
| ConfigValidator.ValidatePort | Task1/task1.cpp:29-48 | Passes iff the `<Port>` has an `ID` and all six required tags. A missing `ID` is reported before any tag. Otherwise the first missing required tag is reported. |
| ConfigValidator.ValidatePorts | Task1/task1.cpp:27-49 | Passes iff every `<Port>` is well formed. Otherwise the first ill-formed `<Port>` in document order decides the error. Only an ID or tag error can come out. |
| ConfigValidator.ValidateDefPort | Task1/task1.cpp:71-86 | Passes iff the entry has an `ID`, a `<vlan>` child and non-empty `<vlan>` text. Each missing piece gives its own error, in that order. |
| ConfigValidator.ValidateDefPorts | Task1/task1.cpp:69-87 | Passes iff every `<defVlans>/<port>` is well formed. Otherwise the first ill-formed entry decides the error. Only an entry-level error can come out. |
| ConfigValidator.Validate | Task1/task1.cpp:7-88 | `validate` succeeds iff every rule holds. |
| ConfigValidator.MessagesTellViolationsApart | Task1/task1.cpp:12-85 | Two reportable violations print the same message iff they are equal, or both are a missing-`ID` error (the reused text at lines 31 and 73). |
| ConfigValidator.ValidateStructuralErrors | Task1/task1.cpp:9-67 | For each of the six section rules (lines 9-25 and 51-67), that error is returned iff every earlier rule holds and this rule fails. This holds whatever else the document contains, so a missing root is always reported as such. |
| ConfigValidator.FirstBadPortReported | Task1/task1.cpp:27-32 | When every `<Port>` before index `i` is well formed and port `i` is not, `validate` reports port `i`'s error. A missing `ID` is reported as such. |
| ConfigValidator.MissingTagReported | Task1/task1.cpp:42-48 | When port `i` is the first bad port, it has an `ID`, and tag `k` is its first missing required tag, the error is "missing tag" with tag `k`. |
| ConfigValidator.FirstBadDefPortReported | Task1/task1.cpp:69-87 | When all `<Port>`s are well formed and `<defVlans>/<port>` `i` is the first ill-formed entry, `validate` reports entry `i`'s error. |
| ConfigValidator.PortsFailureHasCause | Task1/task1.cpp:27-49 | A failing `<Port>` loop failed at some first ill-formed port, with that port's error. |
| ConfigValidator.DefPortsFailureHasCause | Task1/task1.cpp:69-87 | A failing `<defVlans>` loop failed at some first ill-formed entry, with that entry's error. |
| ConfigValidator.FirstBadPortExists | Task1/task1.cpp:27-49 | If some `<Port>` is ill formed, one at that index or earlier is the first ill-formed port. |
| ConfigValidator.FirstBadDefPortExists | Task1/task1.cpp:69-87 | If some `<defVlans>` entry is ill formed, one at that index or earlier is the first ill-formed entry. |
| ConfigValidator.EntryErrorsHaveACause | Task1/task1.cpp:27-87 | An ID, tag or `<vlan>` error from `validate` always comes from the first ill-formed entry of its section, with that entry's error. |
| ConfigReport.PortId | Task1/task1.cpp:122 | `port.attribute("ID").as_int()` (and `defp.attribute("ID").as_int()` at line 115) is a 32-bit value, and 0 when the attribute is absent. |
| ConfigReport.VlanOf | Task1/task1.cpp:116 | `defp.child("vlan").text().as_int()` is a 32-bit value, and 0 when there is no `<vlan>` child. |
| ConfigReport.TableOf | Task1/task1.cpp:112-118 | The reference definition of the table after the entries are written in order, with a later entry overwriting an earlier one. It has no more keys than there are entries. |
| ConfigReport.TableKeys | Task1/task1.cpp:112-118 | The table's keys are exactly the `ID`s of the `<defVlans>` entries. |
| ConfigReport.TableLastWriteWins | Task1/task1.cpp:117 | An `ID` maps to the VLAN of the last entry that carries it. |
| ConfigReport.TableStep | Task1/task1.cpp:113-117 | One loop iteration writes the entry's `ID` to its VLAN over the table of the entries before it. |
| ConfigReport.BuildDefaultVlanTable | Task1/task1.cpp:112-118 | The loop builds `TableOf` of the entries. Its keys are exactly the entries' `ID`s, and each `ID` maps to the VLAN of its last entry. |
| ConfigReport.Lookup | Task1/task1.cpp:130 | `default_vlan[id]` read for printing: the table's value when the `ID` is a key, and 0 otherwise. |
| ConfigReport.DefaultVlanResolved | Task1/task1.cpp:130 | The VLAN printed for an `ID` is that of the last entry with that `ID`, or 0 when no entry has it. |
| ConfigReport.FieldLineParts | Task1/task1.cpp:124-129 | A field line splits back into the label (two spaces, the tag, `": "`) and the text of the port's first child with that tag. |
| ConfigReport.PortBlock | Task1/task1.cpp:123-130 | The block printed for one port is exactly eight writes, one per `std::endl` at lines 123-130. Its contents are stated by `PortBlockContents`. |
| ConfigReport.ConcatStep | Task1/task1.cpp:120-131 | Printing one more element appends its block to the output so far. |
| ConfigReport.ConcatBlockAt | Task1/task1.cpp:120-131 | With blocks of eight writes, the output has 8·n writes, and writes 8i to 8i+7 are element `i`'s block. |
| ConfigReport.ConcatBlocks | Task1/task1.cpp:120-131 | With blocks of eight writes, the output has 8·n writes, and every block `i` is element `i`'s. |
| ConfigReport.ReportStep | Task1/task1.cpp:120-131 | One loop iteration appends that port's eight writes. |
| ConfigReport.ReportLines | Task1/task1.cpp:120-131 | The reference definition of the report. It has exactly 8 writes per `<Port>`, and block `i` is the block of port `i`, in document order. |
| ConfigReport.PortBlockIdWrite | Task1/task1.cpp:123 | The first write of a block is `Port ID="`, the port's `ID` as `std::cout <<` prints it, then `"`. |
| ConfigReport.PortBlockContents | Task1/task1.cpp:122-130 | A block has 8 writes. The number in the first write reads back as the port's `ID`. Writes 2-7 are the six required tags, in the order the validator checks them, each with its first child's text as it is. The last write gives the table's VLAN, or 0. |
| ConfigReport.Report | Task1/task1.cpp:120-131 | The report loop outputs `ReportLines` of the ports, 8 writes per port, with block `i` belonging to port `i`. |
| ConfigReport.Run | Task1/task1.cpp:90-134 | A load failure exits 1 with the "not found" line. A validation failure exits 1 with exactly that failure's message and no report. The exit code is 0 iff the document is valid, and then the output is exactly the report, built with the table from `<defVlans>`. |
| ConfigExamples.TwoPortsValid | Task1/task1.cpp:7-88 | Two well-formed ports plus one `<defVlans>` entry with VLAN 100 make a document that passes. |
| ConfigExamples.DefaultVlanScenario | Task1/task1.cpp:112-130 | With ports 1 and 2 and a default VLAN of 100 for port 1 only, the report has 16 writes: port 1 shows VLAN 100 and port 2 shows 0. |
| ConfigExamples.DefaultVlanExample | Task1/task1.cpp:112-130 | The same result for ports built with all six fields. |
| ConfigExamples.MissingTagScenario | Task1/task1.cpp:42-48 | A port whose first missing tag is `AllowedSpeed_10G` is reported with that tag. |
| ConfigExamples.MissingTagExample | Task1/task1.cpp:46 | A port lacking only `<AllowedSpeed_10G>` prints "XML error: <Port> missing tag <AllowedSpeed_10G>". |
| ConfigExamples.EmptyVlanScenario | Task1/task1.cpp:82-86 | Behind a well-formed port, an empty `<vlan>` is reported as a tag without value. |
| ConfigExamples.EmptyVlanExample | Task1/task1.cpp:82-86 | The same result for a concrete port with all six fields. |
| ConfigExamples.MissingPortsExample | Task1/task1.cpp:15-19 | With both `<Ports>` and `<Vlans>` missing, the earlier rule wins: `<Ports>` is reported. |

## Left out

- Loading and parsing the XML file (`load_file`) is not modelled. The input is the parsed tree, and a failed load is the `None` input of `Run`.
- The tree keeps element nodes only. Comments, processing instructions and the several text nodes pugixml can hold are left out. An element's text stands for both `child_value()` and `text()`.
- AsInt: models an optional sign, decimal digits and saturation to the 32-bit range. pugixml's `as_int` also skips leading whitespace and reads a `0x` prefix as hexadecimal; the model does not.
- Stream output and exit codes are returned as values (`code`, `out`, `err`). Flushing and interleaving of the two streams are not modelled.
- C++ exceptions are replaced by the `Outcome` result. `validate` only looks nodes up and does not change the tree. In the model it is a pure function, so it cannot change the tree either.
- The zero entry that `default_vlan[id]` inserts for an absent `ID` at line 130 is not modelled. It is never printed, and the model's lookup returns the same value, 0.
- The `unordered_map` is a map from `int` to `int`. Its hashing and iteration order are never observed by the program.
- PortBlock, ReportLines, Report: an element of `out` is one write ended by `std::endl`, not one terminal line. A field text is printed as it is, so a text that contains a newline (pugixml keeps it in text that is not all whitespace) shows as several lines on the terminal. The model does not split writes into lines.
