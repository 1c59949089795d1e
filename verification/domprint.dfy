/**
 * Record types in the style of the demo driver (DOMPrint.cpp): a diary entry,
 * a diary holding a nodelist of entries, a trade header with string, int and
 * composite members, and the message around the header. The header keeps a
 * few of the demo's members. `Execute` binds a sample document and reads the
 * members back the way the driver does.
 */
module DomPrint {
  import opened Wrappers
  import opened Numerals
  import opened Dom
  import opened Converters
  import opened Binding

  function StringElement(): Field {
    Leaf(NewConverter(StringKind))
  }

  function IntElement(): Field {
    Leaf(NewConverter(AtoiKind(Int)))
  }

  /** `vmaster_diary_entry` as its constructor leaves it. */
  function DiaryEntry(): Field {
    Record(map["diaryText" := StringElement()])
  }

  /** `vmaster_diary`: a nodelist of diary entries. */
  function Diary(): Field {
    Record(map["vMasterDiaryEntry" := List(DiaryEntry(), [])])
  }

  /** Part of `vmaster_header`. */
  function Header(): Field {
    Record(map[
      "vMasterInstrument" := StringElement(),
      "vMasterEntityCoperID" := IntElement(),
      "vMasterTrader" := StringElement(),
      "vMasterDiary" := Diary()
    ])
  }

  /** `vmaster_message`: its constructor registers the header. */
  method NewMessage() returns (vm: Composite)
    ensures fresh(vm) && vm.mappings == map["vMasterHeader" := Header()]
  {
    vm := new Composite();
    vm.Insert("vMasterHeader", Header());
  }

  /** An element node with one text child. */
  function TextElement(name: string, text: string): DomNode {
    DomNode(ElementNode, name, "", [DomNode(TextNode, "#text", text, [])])
  }

  /** The children of a five-child node sent to `name`: those of each child, in order. */
  lemma MatchingOfHeader(header: DomNode, name: string)
    requires |header.children| == 5
    ensures var c := header.children;
      Matching(c, name)
      == Matching([c[0]], name) + Matching([c[1]], name) + Matching([c[2]], name)
         + Matching([c[3]], name) + Matching([c[4]], name)
  {
    var c := header.children;
    assert c == [c[0]] + [c[1]] + [c[2]] + [c[3]] + [c[4]];
    MatchingAppend([c[0]] + [c[1]] + [c[2]] + [c[3]], [c[4]], name);
    MatchingAppend([c[0]] + [c[1]] + [c[2]], [c[3]], name);
    MatchingAppend([c[0]] + [c[1]], [c[2]], name);
    MatchingAppend([c[0]], [c[1]], name);
  }

  /** The sample document's header: three registered members, a comment and an unregistered element. */
  function SampleHeader(): DomNode {
    DomNode(ElementNode, "vMasterHeader", "", [
      TextElement("vMasterInstrument", "SWAP"),
      DomNode(CommentNode, "#comment", "not bound", []),
      TextElement("vMasterEntityCoperID", "42"),
      SampleDiary(),
      TextElement("vMasterUnknown", "ignored")
    ])
  }

  function SampleEntry(text: string): DomNode {
    DomNode(ElementNode, "vMasterDiaryEntry", "", [TextElement("diaryText", text)])
  }

  function SampleDiary(): DomNode {
    DomNode(ElementNode, "vMasterDiary", "", [SampleEntry("opened"), SampleEntry("amended")])
  }

  function SampleDocument(): DomNode {
    DomNode(ElementNode, "vMasterMessage", "", [SampleHeader()])
  }

  /** The header's members after binding the sample header. */
  function BoundHeader(): map<string, Field> {
    BindChildren(Header().mappings, SampleHeader(), 0)
  }

  lemma AtoiOf42()
    ensures Atoi("42") == 42
  {
    assert SkipSpace("42") == "42";
    assert LeadingDigits("42") == "42";
    assert "42"[..1] == "4";
    assert DigitsValue("42") == DigitsValue("4") * 10 + 2 == 42;
  }

  /** `vmh.instrument()` is the text of `<vMasterInstrument>`, and the member is present. */
  lemma SampleInstrument()
    ensures "vMasterInstrument" in BoundHeader()
    ensures var f := BoundHeader()["vMasterInstrument"];
      f.Leaf? && IsPresent(f) && Get(f) == Text("SWAP")
  {
    var header := SampleHeader();
    assert Matching(header.children, "vMasterInstrument") == [TextElement("vMasterInstrument", "SWAP")] by {
      MatchingOfHeader(header, "vMasterInstrument");
    }
    LeafAfterBind(Header().mappings, header, "vMasterInstrument");
  }

  /** `vmh.entity_coper_id()` is the integer 42 read from the text "42". */
  lemma SampleEntityCoperId()
    ensures "vMasterEntityCoperID" in BoundHeader()
    ensures var f := BoundHeader()["vMasterEntityCoperID"];
      f.Leaf? && IsPresent(f) && Get(f) == Number(42)
  {
    var header := SampleHeader();
    var x := TextElement("vMasterEntityCoperID", "42");
    assert Matching(header.children, "vMasterEntityCoperID") == [x] by {
      MatchingOfHeader(header, "vMasterEntityCoperID");
    }
    LeafAfterBind(Header().mappings, header, "vMasterEntityCoperID");
    assert FirstText(x.children) == "42";
    AtoiOf42();
  }

  /** `has_trader` is false: the document has no `<vMasterTrader>`. */
  lemma SampleHasNoTrader()
    ensures "vMasterTrader" in BoundHeader()
    ensures var f := BoundHeader()["vMasterTrader"];
      f.Leaf? && !IsPresent(f)
  {
    var header := SampleHeader();
    assert Matching(header.children, "vMasterTrader") == [] by {
      MatchingOfHeader(header, "vMasterTrader");
    }
    LeafAfterBind(Header().mappings, header, "vMasterTrader");
  }

  /** Binding the diary: one bound entry per `<vMasterDiaryEntry>`, in document order. */
  lemma SampleDiaryBound()
    ensures var m := BindChildren(Diary().mappings, SampleDiary(), 0);
      "vMasterDiaryEntry" in m
      && var entries := m["vMasterDiaryEntry"];
      entries.List? && Size(entries) == 2
      && At(entries, 0) == BindField(DiaryEntry(), SampleEntry("opened"))
      && At(entries, 1) == BindField(DiaryEntry(), SampleEntry("amended"))
  {
    var diary := SampleDiary();
    assert Matching(diary.children, "vMasterDiaryEntry") == [SampleEntry("opened"), SampleEntry("amended")];
    ListAfterBind(Diary().mappings, diary, "vMasterDiaryEntry");
  }

  /** The header's diary member is the diary bound to `<vMasterDiary>`. */
  lemma SampleDiaryEntries()
    ensures "vMasterDiary" in BoundHeader()
    ensures BoundHeader()["vMasterDiary"] == Record(BindChildren(Diary().mappings, SampleDiary(), 0))
  {
    var header := SampleHeader();
    var diary := SampleDiary();
    assert Matching(header.children, "vMasterDiary") == [diary] by {
      MatchingOfHeader(header, "vMasterDiary");
    }
    BindChildrenDispatchesByName(Header().mappings, header, 0, "vMasterDiary");
    assert header.children[0..] == header.children;
  }

  /** The driver's `execute`, without the file, the parser, the timer and the console. */
  method Execute() {
    var doc := SampleDocument();
    var vm := NewMessage();
    var ok := vm.Bind(Some(Wrap(Element, Some(doc))));
    assert ok;
    assert doc.children[0..] == [SampleHeader()];
    BindChildrenDispatchesByName(map["vMasterHeader" := Header()], doc, 0, "vMasterHeader");
    var vmh := vm.mappings["vMasterHeader"];
    assert vmh == Record(BoundHeader());
    SampleInstrument();
    SampleEntityCoperId();
    SampleHasNoTrader();
    assert !IsPresent(vmh.mappings["vMasterTrader"]);
    SampleDiaryEntries();
    SampleDiaryBound();
    assert Size(vmh.mappings["vMasterDiary"].mappings["vMasterDiaryEntry"]) == 2;
  }
}
