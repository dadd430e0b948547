/** The confirmation document: its content stream, its five objects, and what a reader that starts
    from the bytes of the file gets back. */
module PdfDocument {
  import opened Wrappers
  import opened PdfSyntax
  import opened PdfFile

  // ---- the content stream ----

  /** A piece of the content: operators, then one shown string. */
  datatype Item = Item(ops: string, text: string)

  const SHOW := ") Tj\n"
  const TITLE_OPS := "BT\n/F1 18 Tf\n72 760 Td\n"
  const CAPTION_OPS := "/F1 11 Tf\n0 -28 Td\n"
  const CAPTION := "HarborWorks confirmation document"
  const STAMP_OPS := "0 -22 Td\n"
  const STAMP := "Generated: "
  const LINE_OPS := "0 -18 Td\n"
  const END_TEXT := "ET\n"

  function Show(item: Item): string { item.ops + "(" + Escape(item.text) + SHOW }

  function Content(items: seq<Item>): string {
    if items == [] then [] else Content(items[..|items| - 1]) + Show(items[|items| - 1])
  }

  function FieldItems(fields: map<string, string>, order: seq<string>): (items: seq<Item>)
    requires forall k <- order :: k in fields
    ensures |items| == |order|
  {
    seq(|order|, i requires 0 <= i < |order| => Item(LINE_OPS, order[i] + ": " + fields[order[i]]))
  }

  function Front(title: string, stamp: string): seq<Item> {
    [Item(TITLE_OPS, title), Item(CAPTION_OPS, CAPTION), Item(STAMP_OPS, STAMP + stamp)]
  }

  function Items(title: string, stamp: string, fields: map<string, string>, order: seq<string>): seq<Item>
    requires forall k <- order :: k in fields
  {
    Front(title, stamp) + FieldItems(fields, order)
  }

  // ---- the objects ----

  const HEADER := "%PDF-1.4\n%\U{ff}\U{ff}\U{ff}\U{ff}\n"
  const CATALOG_FRONT := "<< /Type /Catalog "
  const PAGES_KEY := "/Pages "
  const CATALOG_BACK := " >>\nendobj\n"
  const PAGES_FRONT := "<< /Type /Pages "
  const KIDS_KEY := "/Kids ["
  const PAGES_BACK := "] /Count 1 >>\nendobj\n"
  const PAGE_FRONT := "<< /Type /Page " + "/Parent 2 0 R " + "/MediaBox [0 0 612 792] "
  const CONTENTS_KEY := "/Contents "
  const PAGE_MIDDLE := " /Resources << "
  const FONT_KEY := "/Font << /F1 "
  const PAGE_BACK := " >> >> >>\nendobj\n"
  const CATALOG := CATALOG_FRONT + PAGES_KEY + "2" + REF + CATALOG_BACK
  const PAGES := PAGES_FRONT + KIDS_KEY + "3" + REF + PAGES_BACK
  const PAGE := PAGE_FRONT + CONTENTS_KEY + "4" + REF + (PAGE_MIDDLE + FONT_KEY + "5" + REF + PAGE_BACK)
  const FONT := "<< /Type /Font /Subtype /Type1 /BaseFont /Helvetica >>\nendobj\n"

  function Objects(content: string): seq<string> {
    [Head(1) + CATALOG, Head(2) + PAGES, Head(3) + PAGE, StreamObject(4, content), Head(5) + FONT]
  }

  function Document(items: seq<Item>): string {
    Assemble(HEADER, Objects(Content(items) + END_TEXT))
  }

  // ---- reading the shown strings ----

  /** The literal strings of a content stream, in order. */
  function ShownStrings(t: string): seq<string>
    decreases |t|
  {
    if t == [] then []
    else if t[0] == '(' then
      match ReadString(t[1..], 0)
      case None => []
      case Some((s, rest)) => [s] + ShownStrings(rest)
    else ShownStrings(t[1..])
  }

  function Texts(items: seq<Item>): seq<string> {
    if items == [] then [] else Texts(items[..|items| - 1]) + [NormalizeEol(items[|items| - 1].text)]
  }

  lemma {:induction false} OperatorsShowNothing(ops: string, tail: string)
    requires '(' !in ops
    ensures ShownStrings(ops + tail) == ShownStrings(tail)
  {
    if ops == [] {
      assert ops + tail == tail;
    } else {
      assert (ops + tail)[1..] == ops[1..] + tail;
      OperatorsShowNothing(ops[1..], tail);
    }
  }

  /** One piece shows its text; `after` is what follows the closing parenthesis. */
  lemma PieceShows(ops: string, text: string, after: string, tail: string)
    requires '(' !in ops && '(' !in after
    ensures ShownStrings(ops + "(" + Escape(text) + (")" + after) + tail) == [NormalizeEol(text)] + ShownStrings(tail)
  {
    var shown := "(" + (Escape(text) + ")" + (after + tail));
    assert ops + "(" + Escape(text) + (")" + after) + tail == ops + shown;
    OperatorsShowNothing(ops, shown);
    assert shown[1..] == Escape(text) + ")" + (after + tail);
    EscapedStringReads(text, after + tail);
    OperatorsShowNothing(after, tail);
  }

  lemma {:induction false} ContentShows(items: seq<Item>, tail: string)
    requires forall item :: item in items ==> '(' !in item.ops
    ensures ShownStrings(Content(items) + tail) == Texts(items) + ShownStrings(tail)
  {
    if items == [] {
      assert Content(items) + tail == tail;
    } else {
      var init, item := items[..|items| - 1], items[|items| - 1];
      assert item in items;
      assert Content(items) + tail == Content(init) + (Show(item) + tail);
      ContentShows(init, Show(item) + tail);
      ShowWord();
      PieceShows(item.ops, item.text, " Tj\n", tail);
    }
  }

  lemma ShowWord()
    ensures SHOW == ")" + " Tj\n" && '(' !in " Tj\n"
  {
  }

  // ---- main results ----

  lemma ObjectsAreNumbered(content: string, i: nat)
    requires i < 5
    ensures |Objects(content)| == 5 && StartsAt(Objects(content)[i], 0, Head(i + 1))
  {
    var body := [CATALOG, PAGES, PAGE, "", FONT];
    if i == 3 {
      StreamStartsWithHead(Head(4), LENGTH_WORD, Decimal(|content|), STREAM_WORD, content + ENDSTREAM + ENDOBJ);
    } else {
      WordFirst(Head(i + 1), body[i]);
    }
  }

  lemma WordFirst(w: string, b: string)
    ensures StartsAt(w + b, 0, w)
  {
  }

  lemma StreamStartsWithHead(h: string, l: string, d: string, s: string, rest: string)
    ensures StartsAt(h + l + d + s + rest, 0, h)
  {
    assert h + l + d + s + rest == h + (l + d + s + rest);
  }

  /** Every document is navigable: from its last lines a reader finds each of its five objects at
      the offset the table gives, and the content stream has exactly its declared length. */
  lemma {:induction false} DocumentIsNavigable(items: seq<Item>, i: nat)
    requires i < 5 && |Document(items)| < 10_000_000_000
    ensures var pdf, content := Document(items), Content(items) + END_TEXT;
            && Locate(pdf, i + 1).Some?
            && StartsAt(pdf, Locate(pdf, i + 1).value, Objects(content)[i])
            && Locate(pdf, 4).Some? && ReadStream(pdf, Locate(pdf, 4).value, 4) == Some(content)
  {
    var content := Content(items) + END_TEXT;
    ObjectsAreNumbered(content, i);
    ObjectsAreNumbered(content, 3);
    EveryObjectIsFound(HEADER, Objects(content), i);
    EveryObjectIsFound(HEADER, Objects(content), 3);
    StreamIsRead(Document(items), Locate(Document(items), 4).value, 4, content);
  }

  lemma EndShowsNothing()
    ensures ShownStrings(END_TEXT) == []
  {
    OperatorsShowNothing(END_TEXT, "");
    assert END_TEXT + "" == END_TEXT;
  }

  lemma OperatorsHaveNoStrings()
    ensures '(' !in TITLE_OPS && '(' !in CAPTION_OPS && '(' !in STAMP_OPS && '(' !in LINE_OPS
  {
  }

  /** What the pieces of a document show: the title, the caption, the stamp, and one line a field. */
  ghost predicate Shows(texts: seq<string>, title: string, stamp: string, fields: map<string, string>, order: seq<string>) {
    && |texts| == 3 + |order|
    && texts[0] == NormalizeEol(title) && texts[1] == "HarborWorks confirmation document"
    && texts[2] == NormalizeEol("Generated: " + stamp)
    && forall i :: 0 <= i < |order| ==>
         order[i] in fields && texts[3 + i] == NormalizeEol(order[i] + ": " + fields[order[i]])
  }

  lemma {:induction false} TextsAre(items: seq<Item>)
    ensures |Texts(items)| == |items| && forall i :: 0 <= i < |items| ==> Texts(items)[i] == NormalizeEol(items[i].text)
  {
    if items != [] {
      TextsAre(items[..|items| - 1]);
    }
  }

  lemma {:induction false} StreamShowsTexts(items: seq<Item>)
    requires |Document(items)| < 10_000_000_000 && forall item :: item in items ==> '(' !in item.ops
    ensures var pdf := Document(items);
            && Locate(pdf, 4).Some? && ReadStream(pdf, Locate(pdf, 4).value, 4).Some?
            && ShownStrings(ReadStream(pdf, Locate(pdf, 4).value, 4).value) == Texts(items)
  {
    DocumentIsNavigable(items, 3);
    ContentShows(items, END_TEXT);
    EndShowsNothing();
    assert Texts(items) + [] == Texts(items);
  }

  lemma ItemsHaveNoStrings(title: string, stamp: string, fields: map<string, string>, order: seq<string>)
    requires forall k <- order :: k in fields
    ensures forall item :: item in Items(title, stamp, fields, order) ==> '(' !in item.ops
  {
    OperatorsHaveNoStrings();
    forall item | item in FieldItems(fields, order) ensures item.ops == LINE_OPS {}
  }

  lemma CaptionReads()
    ensures NormalizeEol(CAPTION) == CAPTION
  {
    assert '\r' !in CAPTION;
    NormalizeDropsCr(CAPTION);
  }

  lemma {:induction false} ItemsShow(title: string, stamp: string, fields: map<string, string>, order: seq<string>)
    requires forall k <- order :: k in fields
    ensures Shows(Texts(Items(title, stamp, fields, order)), title, stamp, fields, order)
  {
    var items := Items(title, stamp, fields, order);
    CaptionReads();
    TextsAre(items);
    forall i | 0 <= i < |order| ensures order[i] in fields && items[3 + i].text == order[i] + ": " + fields[order[i]] {
      assert order[i] in order;
      assert items[3 + i] == FieldItems(fields, order)[i];
    }
  }

  /** Every field once. */
  ghost predicate IsWalk(fields: map<string, string>, order: seq<string>) {
    && (forall k :: k in order <==> k in fields)
    && (forall i, k :: 0 <= i < k < |order| ==> order[i] != order[k])
  }

  ghost predicate RenderedIn(pdf: string, title: string, stamp: string, fields: map<string, string>, order: seq<string>) {
    IsWalk(fields, order) && pdf == Document(Items(title, stamp, fields, order))
  }

  /** A file that may be written for the fields, whose order is up to the map. */
  ghost predicate IsRendering(pdf: string, title: string, stamp: string, fields: map<string, string>) {
    exists order :: RenderedIn(pdf, title, stamp, fields, order)
  }

  /** The strings show the title, the caption, the stamp and every field once. */
  ghost predicate ShowsAll(texts: seq<string>, title: string, stamp: string, fields: map<string, string>) {
    exists order :: IsWalk(fields, order) && Shows(texts, title, stamp, fields, order)
  }

  /** From the bytes of the file alone, a reader gets the title and every field back. */
  lemma {:induction false} ReaderSeesFields(pdf: string, title: string, stamp: string, fields: map<string, string>)
    requires IsRendering(pdf, title, stamp, fields) && |pdf| < 10_000_000_000
    ensures Locate(pdf, 4).Some? && ReadStream(pdf, Locate(pdf, 4).value, 4).Some?
    ensures ShowsAll(ShownStrings(ReadStream(pdf, Locate(pdf, 4).value, 4).value), title, stamp, fields)
  {
    var order :| RenderedIn(pdf, title, stamp, fields, order);
    ItemsHaveNoStrings(title, stamp, fields, order);
    StreamShowsTexts(Items(title, stamp, fields, order));
    ItemsShow(title, stamp, fields, order);
  }

  // ---- the writer ----

  lemma AddItem(items: seq<Item>, item: Item)
    ensures Content(items + [item]) == Content(items) + Show(item)
  {
    assert (items + [item])[..|items + [item]| - 1] == items;
  }

  lemma AddObject(base: nat, objs: seq<string>, obj: string)
    ensures Flatten(objs + [obj]) == Flatten(objs) + obj
    ensures Offsets(base, objs + [obj]) == Offsets(base, objs) + [base + |Flatten(objs)|]
  {
    assert (objs + [obj])[..|objs + [obj]| - 1] == objs;
  }

  class Writer {
    var buf: string
    var offsets: seq<nat>

    constructor ()
      ensures buf == "" && offsets == []
    {
      buf, offsets := "", [];
    }

    method WriteString(s: string)
      modifies this`buf
      ensures buf == old(buf) + s
    {
      buf := buf + s;
    }

    /** Records where the object starts, then writes it. */
    method WriteObject(s: string, ghost objs: seq<string>, ghost base: nat)
      requires offsets == Offsets(base, objs) && |buf| == base + |Flatten(objs)|
      modifies this
      ensures buf == old(buf) + s
      ensures offsets == Offsets(base, objs + [s]) && |buf| == base + |Flatten(objs + [s])|
    {
      AddObject(base, objs, s);
      offsets := offsets + [|buf|];
      buf := buf + s;
    }
  }

  lemma {:induction false} PlainTextEscapesToItself(s: string, t: string)
    requires Plain(s)
    ensures Escape(s + t) == s + Escape(t)
  {
    if s == [] {
      assert s + t == t;
    } else {
      assert (s + t)[1..] == s[1..] + t;
      assert s[0] in s && forall c :: c in s[1..] ==> c in s;
      PlainTextEscapesToItself(s[1..], t);
      assert Escape(s + t) == [s[0]] + (s[1..] + Escape(t));
    }
  }

  predicate Plain(s: string) { forall c | c in s :: c != '(' && c != ')' && c != '\\' }

  lemma LabelsArePlain()
    ensures Plain(CAPTION) && Plain(STAMP)
  {
  }

  /** A shown string with a plain label in front of an escaped text; the label is written as it is. */
  method WriteShown(ops: string, caption: string, text: string) returns (s: string)
    requires Plain(caption)
    ensures s == Show(Item(ops, caption + text))
  {
    PlainTextEscapesToItself(caption, text);
    s := ops + "(" + (caption + Escape(text)) + SHOW;
  }

  /** The first three pieces. */
  method WriteFront(title: string, stamp: string) returns (content: string)
    ensures content == Content(Front(title, stamp))
  {
    LabelsArePlain();
    ghost var front := Front(title, stamp);
    var first := WriteShown(TITLE_OPS, "", title);
    assert first == Show(front[0]) by {
      assert "" + title == title;
    }
    var second := WriteShown(CAPTION_OPS, CAPTION, "");
    assert second == Show(front[1]) by {
      EmptyAdds(CAPTION);
    }
    var third := WriteShown(STAMP_OPS, STAMP, stamp);
    content := first + second + third;
    FrontContent(front);
  }

  lemma EmptyAdds(s: string)
    ensures s + "" == s
  {
  }

  lemma FrontContent(items: seq<Item>)
    requires |items| == 3
    ensures Content(items) == Show(items[0]) + Show(items[1]) + Show(items[2])
  {
    AddItem([], items[0]);
    AddItem([items[0]], items[1]);
    AddItem([items[0], items[1]], items[2]);
    assert [] + [items[0]] == [items[0]] && [items[0]] + [items[1]] == [items[0], items[1]];
    assert [items[0], items[1]] + [items[2]] == items;
  }

  /** One line a field, in the order the map happens to be walked. */
  method WriteFields(ghost front: seq<Item>, start: string, fields: map<string, string>)
    returns (content: string, order: seq<string>)
    requires start == Content(front)
    ensures IsWalk(fields, order)
    ensures content == Content(front + FieldItems(fields, order))
  {
    content, order := start, [];
    assert front + FieldItems(fields, []) == front;
    var left := fields.Keys;
    while left != {}
      invariant left <= fields.Keys && IsWalkBut(fields, order, left)
      invariant content == Content(front + FieldItems(fields, order))
      decreases |left|
    {
      var k :| k in left;
      AddField(front, fields, order, k);
      WalkOneMore(fields, order, left, k);
      content := content + (LINE_OPS + "(" + Escape(k + ": " + fields[k]) + SHOW);
      left, order := left - {k}, order + [k];
    }
  }

  /** Every field once, but those left. */
  ghost predicate IsWalkBut(fields: map<string, string>, order: seq<string>, left: set<string>) {
    && (forall k :: k in order <==> k in fields && k !in left)
    && (forall i, k :: 0 <= i < k < |order| ==> order[i] != order[k])
  }

  lemma WalkOneMore(fields: map<string, string>, order: seq<string>, left: set<string>, k: string)
    requires k in left && left <= fields.Keys && IsWalkBut(fields, order, left)
    ensures IsWalkBut(fields, order + [k], left - {k})
  {
    assert k !in order;
  }

  method WriteContent(title: string, stamp: string, fields: map<string, string>)
    returns (content: string, order: seq<string>)
    ensures IsWalk(fields, order)
    ensures content == Content(Items(title, stamp, fields, order)) + END_TEXT
  {
    var front := WriteFront(title, stamp);
    content, order := WriteFields(Front(title, stamp), front, fields);
    content := content + END_TEXT;
  }

  lemma AddField(front: seq<Item>, fields: map<string, string>, order: seq<string>, k: string)
    requires k in fields && forall x <- order :: x in fields
    ensures Content(front + FieldItems(fields, order + [k]))
            == Content(front + FieldItems(fields, order)) + Show(Item(LINE_OPS, k + ": " + fields[k]))
  {
    var item := Item(LINE_OPS, k + ": " + fields[k]);
    AddItem(front + FieldItems(fields, order), item);
    assert FieldItems(fields, order + [k]) == FieldItems(fields, order) + [item];
    assert front + FieldItems(fields, order + [k]) == front + FieldItems(fields, order) + [item];
  }

  /** The whole file: header, objects with their offsets recorded on the way, table, trailer. */
  method RenderSimplePDF(title: string, stamp: string, fields: map<string, string>)
    returns (pdf: string)
    ensures IsRendering(pdf, title, stamp, fields)
  {
    var stream, order := WriteContent(title, stamp, fields);
    pdf := RenderObjects(HEADER, Objects(stream));
    assert RenderedIn(pdf, title, stamp, fields, order);
  }

  /** The objects one after the other, their offsets recorded on the way. */
  method WriteObjects(header: string, objs: seq<string>) returns (w: Writer)
    ensures fresh(w) && w.offsets == Offsets(|header|, objs) && w.buf == header + Flatten(objs)
  {
    w := new Writer();
    w.WriteString(header);
    assert objs[..0] == [];
    for i := 0 to |objs|
      invariant fresh(w)
      invariant w.offsets == Offsets(|header|, objs[..i]) && w.buf == header + Flatten(objs[..i])
    {
      w.WriteObject(objs[i], objs[..i], |header|);
      AddObject(|header|, objs[..i], objs[i]);
      assert objs[..i + 1] == objs[..i] + [objs[i]];
    }
    assert objs[..|objs|] == objs;
  }

  method WriteEntries(offsets: seq<nat>) returns (s: string)
    ensures s == Entries(offsets)
  {
    s := "";
    for i := 0 to |offsets|
      invariant s == Entries(offsets[..i])
    {
      assert offsets[..i + 1][..i] == offsets[..i];
      s := s + (Padded(offsets[i], 10) + ENTRY_END);
    }
    assert offsets[..|offsets|] == offsets;
  }

  method RenderObjects(header: string, objs: seq<string>) returns (pdf: string)
    ensures pdf == Assemble(header, objs)
  {
    var w := WriteObjects(header, objs);
    var xref := |w.buf|;
    var entries := WriteEntries(w.offsets);
    w.WriteString(XrefWith(|w.offsets| + 1, entries));
    w.WriteString(Trailer(|w.offsets| + 1, xref));
    pdf := w.buf;
  }
}
