/** A reader that knows nothing but the bytes of a file and follows it from the trailer to the root, the
    page tree, the page, its content stream and its font (ISO 32000-1, sections 7.5.5, 7.7.2 and 7.7.3). */
module PdfPage {
  import opened Wrappers
  import opened PdfSyntax
  import opened PdfFile
  import opened PdfDocument

  // ---- reading ----

  /** The first place from `from` on where the key stands. */
  function FindKey(s: string, from: nat, key: string): (p: Option<nat>)
    ensures p.Some? ==> StartsAt(s, p.value, key)
    decreases if from < |s| then |s| - from else 0
  {
    if StartsAt(s, from, key) then Some(from)
    else if from >= |s| then None
    else FindKey(s, from + 1, key)
  }

  /** The object that an entry of the dictionary at `from` refers to. */
  function Reference(s: string, from: nat, key: string): Option<nat> {
    match FindKey(s, from, key)
    case None => None
    case Some(p) =>
      match NumberAfter(s, p, key, REF)
      case None => None
      case Some((n, _)) => Some(n)
  }

  /** Where the object is that an entry of object `number` refers to, and its number. */
  function Follow(pdf: string, number: nat, key: string): Option<(nat, nat)> {
    match Locate(pdf, number)
    case None => None
    case Some(at) =>
      match Reference(pdf, at, key)
      case None => None
      case Some(n) => match Locate(pdf, n) case None => None case Some(p) => Some((n, p))
  }

  /** The root object that the trailer names, when the trailer follows the table and gives its size. */
  function Root(pdf: string): Option<nat> {
    match FindXref(pdf)
    case None => None
    case Some(xref) =>
      match ReadXrefHeader(pdf, xref)
      case None => None
      case Some((count, entries)) =>
        match NumberAfter(pdf, entries + ENTRY_WIDTH * count, TRAILER_WORD, ROOT_KEY)
        case None => None
        case Some((size, at)) =>
          if size != count || !(at <= |pdf|) then None
          else
            match NumberAfter(pdf, at, "", REF)
            case None => None
            case Some((root, _)) => Some(root)
  }

  /** The first page: from the root to the page tree to its first kid. */
  function FirstPage(pdf: string): Option<nat> {
    match Root(pdf)
    case None => None
    case Some(root) =>
      match Follow(pdf, root, PAGES_KEY)
      case None => None
      case Some((pages, _)) =>
        match Follow(pdf, pages, KIDS_KEY)
        case None => None
        case Some((page, _)) => Some(page)
  }

  /** The content stream of the first page. */
  function PageContent(pdf: string): Option<string> {
    match FirstPage(pdf)
    case None => None
    case Some(page) =>
      match Follow(pdf, page, CONTENTS_KEY)
      case None => None
      case Some((content, at)) => ReadStream(pdf, at, content)
  }

  /** Where the first page's font F1 is. */
  function PageFont(pdf: string): Option<(nat, nat)> {
    match FirstPage(pdf)
    case None => None
    case Some(page) => Follow(pdf, page, FONT_KEY)
  }

  // ---- what the reader finds ----

  lemma KeyTooEarly(s: string, from: nat, pre: string, key: string)
    requires |key| >= 2 && key[0] != key[1] && key[1] !in pre && pre != []
    requires StartsAt(s, from, pre + key)
    ensures !StartsAt(s, from, key)
  {
    var text := pre + key;
    assert text[1] == if |pre| > 1 then pre[1] else key[0];
    assert text[1] == s[from..from + |text|][1] == s[from + 1];
  }

  lemma {:induction false} KeyIsFound(s: string, from: nat, pre: string, key: string)
    requires |key| >= 2 && key[0] != key[1] && key[1] !in pre
    requires StartsAt(s, from, pre + key)
    ensures FindKey(s, from, key) == Some(from + |pre|)
    decreases |pre|
  {
    var text := s[from..from + |pre + key|];
    assert text == pre + key;
    if pre == [] {
      assert pre + key == key;
    } else {
      KeyTooEarly(s, from, pre, key);
      assert text[1..] == pre[1..] + key && text[1..] == s[from + 1..from + 1 + |pre[1..] + key|];
      KeyIsFound(s, from + 1, pre[1..], key);
    }
  }

  lemma ReferenceIsRead(s: string, from: nat, pre: string, key: string, n: nat, rest: string)
    requires |key| >= 2 && key[0] != key[1] && key[1] !in pre
    requires StartsAt(s, from, pre + key + Decimal(n) + REF + rest)
    ensures Reference(s, from, key) == Some(n)
  {
    KeyedParts(s, from, pre, key, Decimal(n), REF, rest);
    KeyIsFound(s, from, pre, key);
    ReferenceNumber(s, from + |pre|, key, n);
  }

  lemma ReferenceNumber(s: string, at: nat, key: string, n: nat)
    requires StartsAt(s, at, key) && StartsAt(s, at + |key|, Decimal(n)) && StartsAt(s, at + |key| + |Decimal(n)|, REF)
    ensures NumberAfter(s, at, key, REF) == Some((n, at + |key| + |Decimal(n)| + |REF|))
  {
    NumberAfterReads(s, at, key, n, REF);
  }

  lemma KeyedParts(s: string, from: nat, pre: string, key: string, d: string, ref: string, rest: string)
    requires StartsAt(s, from, pre + key + d + ref + rest)
    ensures StartsAt(s, from, pre + key) && StartsAt(s, from + |pre|, key)
    ensures StartsAt(s, from + |pre| + |key|, d) && StartsAt(s, from + |pre| + |key| + |d|, ref)
  {
    var whole := pre + key + d + ref + rest;
    Places(pre, key, d, ref, rest);
    PartAt(s, from, whole, |pre|, key);
    PartAt(s, from, whole, |pre| + |key|, d);
    PartAt(s, from, whole, |pre| + |key| + |d|, ref);
    WordFirst(pre + key, d + ref + rest);
    assert whole == pre + key + (d + ref + rest);
    PartAt(s, from, whole, 0, pre + key);
  }

  /** The trailer stands right behind the table. */
  lemma TableWidth(offsets: seq<nat>)
    requires forall o :: o in offsets ==> o < 10_000_000_000
    ensures |XrefTable(offsets)| == EntriesAt(0, |offsets| + 1) + ENTRY_WIDTH * (|offsets| + 1)
  {
    EntriesWidth(offsets);
    FreeEntryWidth();
  }

  lemma RootIsRead(pdf: string, body: string, offsets: seq<nat>)
    requires forall o :: o in offsets ==> o < 10_000_000_000
    requires pdf == body + XrefTable(offsets) + Trailer(|offsets| + 1, |body|)
    ensures Root(pdf) == Some(1)
  {
    var size := |offsets| + 1;
    XrefIsFound(body + XrefTable(offsets), size, |body|);
    CountIsRead(body, offsets, Trailer(size, |body|));
    TableWidth(offsets);
    TrailerIsRead(pdf, body + XrefTable(offsets), size, |body|);
    RootFrom(pdf, |body|, size, EntriesAt(|body|, size), |body + XrefTable(offsets)|);
  }

  lemma RootFrom(pdf: string, xref: nat, count: nat, entries: nat, trailer: nat)
    requires FindXref(pdf) == Some(xref) && ReadXrefHeader(pdf, xref) == Some((count, entries))
    requires trailer == entries + ENTRY_WIDTH * count && TrailerReads(pdf, trailer, count)
    ensures Root(pdf) == Some(1)
  {
  }

  /** The trailer at `at` gives the size and the root object 1. */
  ghost predicate TrailerReads(pdf: string, at: nat, size: nat) {
    var r := NumberAfter(pdf, at, TRAILER_WORD, ROOT_KEY);
    && r.Some? && r.value.0 == size && r.value.1 <= |pdf|
    && var root := NumberAfter(pdf, r.value.1, "", REF);
       root.Some? && root.value.0 == 1
  }

  lemma TrailerIsRead(pdf: string, front: string, size: nat, xref: nat)
    requires pdf == front + Trailer(size, xref)
    ensures TrailerReads(pdf, |front|, size)
  {
    OneIsDecimal();
    NumbersAreRead(pdf, front, TRAILER_WORD, size, ROOT_KEY, REF, ROOT_END, STARTXREF + Decimal(xref) + EOF);
  }

  lemma NumbersAreRead(pdf: string, front: string, w: string, size: nat, k: string, ref: string, e: string, rest: string)
    requires pdf == front + (w + Decimal(size) + (k + Decimal(1) + ref + e) + rest)
    requires k != [] && !IsDigit(k[0]) && ref != [] && !IsDigit(ref[0])
    ensures var at := |front| + |w| + |Decimal(size)| + |k|;
            && NumberAfter(pdf, |front|, w, k) == Some((size, at)) && at <= |pdf|
            && NumberAfter(pdf, at, "", ref) == Some((1, at + |Decimal(1)| + |ref|))
  {
    FirstNumber(pdf, front, w, size, k, Decimal(1), ref, e, rest);
    SecondNumber(pdf, front, w, Decimal(size), k, 1, ref, e, rest);
  }

  lemma FirstNumber(pdf: string, front: string, w: string, n: nat, k: string, m: string, ref: string, e: string, rest: string)
    requires pdf == front + (w + Decimal(n) + (k + m + ref + e) + rest)
    requires k != [] && !IsDigit(k[0])
    ensures var at := |front| + |w| + |Decimal(n)| + |k|;
            NumberAfter(pdf, |front|, w, k) == Some((n, at)) && at <= |pdf|
  {
    var tail := m + ref + e + rest;
    FirstFour(front, w, Decimal(n), k, m, ref, e, rest);
    Places(front, w, Decimal(n), k, tail);
    NumberAfterReads(pdf, |front|, w, n, k);
  }

  lemma SecondNumber(pdf: string, front: string, w: string, d: string, k: string, m: nat, ref: string, e: string, rest: string)
    requires pdf == front + (w + d + (k + Decimal(m) + ref + e) + rest)
    requires ref != [] && !IsDigit(ref[0])
    ensures var at := |front| + |w| + |d| + |k|;
            NumberAfter(pdf, at, "", ref) == Some((m, at + |Decimal(m)| + |ref|))
  {
    LastFour(front, w, d, k, Decimal(m), ref, e, rest);
    Places(front + w + d + k, Decimal(m), ref, e, rest);
    NumberAfterReads(pdf, |front| + |w| + |d| + |k|, "", m, ref);
  }

  lemma OneIsDecimal()
    ensures Decimal(1) == "1"
  {
  }

  lemma FirstFour(front: string, w: string, d: string, k: string, m: string, ref: string, e: string, rest: string)
    ensures front + (w + d + (k + m + ref + e) + rest) == front + w + d + k + (m + ref + e + rest)
  {
  }

  lemma LastFour(front: string, w: string, d: string, k: string, m: string, ref: string, e: string, rest: string)
    ensures front + (w + d + (k + m + ref + e) + rest) == (front + w + d + k) + m + ref + e + rest
  {
    FirstFour(front, w, d, k, m, ref, e, rest);
  }

  lemma DigitsAre()
    ensures Decimal(2) == "2" && Decimal(3) == "3" && Decimal(4) == "4" && Decimal(5) == "5"
  {
  }

  // ---- the five objects ----

  lemma HeadIsPlain(n: nat, c: char)
    requires 'A' <= c <= 'Z'
    ensures c !in Head(n)
  {
    DecimalReads(n);
    assert forall d :: d in Decimal(n) ==> IsDigit(d);
    assert forall d :: d in OBJ_WORD ==> !('A' <= d <= 'Z');
  }

  lemma NotInEither(c: char, a: string, b: string)
    requires c !in a && c !in b
    ensures c !in a + b
  {
  }

  lemma PagesKeyIsNew()
    ensures PAGES_KEY[1] !in Head(1) + CATALOG_FRONT
  {
    HeadIsPlain(1, 'P');
    assert 'P' !in CATALOG_FRONT;
    NotInEither('P', Head(1), CATALOG_FRONT);
  }

  lemma KidsKeyIsNew()
    ensures KIDS_KEY[1] !in Head(2) + PAGES_FRONT
  {
    HeadIsPlain(2, 'K');
    assert 'K' !in PAGES_FRONT;
    NotInEither('K', Head(2), PAGES_FRONT);
  }

  lemma PageFrontIsPlain(c: char)
    requires c == 'C' || c == 'F'
    ensures c !in PAGE_FRONT
  {
    var a, b, d := "<< /Type /Page ", "/Parent 2 0 R ", "/MediaBox [0 0 612 792] ";
    assert 'C' !in a && 'C' !in b && 'C' !in d;
    assert 'F' !in a && 'F' !in b && 'F' !in d;
    NotInEither(c, a, b);
    NotInEither(c, a + b, d);
  }

  lemma ContentsKeyIsNew()
    ensures CONTENTS_KEY[1] !in Head(3) + PAGE_FRONT
  {
    HeadIsPlain(3, 'C');
    PageFrontIsPlain('C');
    NotInEither('C', Head(3), PAGE_FRONT);
  }

  lemma FontKeyIsNew()
    ensures FONT_KEY[1] !in Head(3) + PAGE_FRONT + CONTENTS_KEY + Decimal(4) + REF + PAGE_MIDDLE
  {
    HeadIsPlain(3, 'F');
    PageFrontIsPlain('F');
    DigitsAre();
    assert 'F' !in CONTENTS_KEY && 'F' !in "4" && 'F' !in REF && 'F' !in PAGE_MIDDLE;
    NotInEither('F', Head(3), PAGE_FRONT);
    NotInEither('F', Head(3) + PAGE_FRONT, CONTENTS_KEY);
    NotInEither('F', Head(3) + PAGE_FRONT + CONTENTS_KEY, "4");
    NotInEither('F', Head(3) + PAGE_FRONT + CONTENTS_KEY + "4", REF);
    NotInEither('F', Head(3) + PAGE_FRONT + CONTENTS_KEY + "4" + REF, PAGE_MIDDLE);
  }

  /** An object with one reference behind a key. */
  lemma ObjectRefers(pdf: string, at: nat, head: string, front: string, key: string, n: nat, back: string)
    requires StartsAt(pdf, at, head + (front + key + Decimal(n) + REF + back))
    requires |key| >= 2 && key[0] != key[1] && key[1] !in head + front
    ensures Reference(pdf, at, key) == Some(n)
  {
    assert head + (front + key + Decimal(n) + REF + back) == (head + front) + key + Decimal(n) + REF + back;
    ReferenceIsRead(pdf, at, head + front, key, n, back);
  }

  lemma CatalogRefers(pdf: string, at: nat)
    requires StartsAt(pdf, at, Head(1) + CATALOG)
    ensures Reference(pdf, at, PAGES_KEY) == Some(2)
  {
    DigitsAre();
    PagesKeyIsNew();
    ObjectRefers(pdf, at, Head(1), CATALOG_FRONT, PAGES_KEY, 2, CATALOG_BACK);
  }

  lemma PagesRefer(pdf: string, at: nat)
    requires StartsAt(pdf, at, Head(2) + PAGES)
    ensures Reference(pdf, at, KIDS_KEY) == Some(3)
  {
    DigitsAre();
    KidsKeyIsNew();
    ObjectRefers(pdf, at, Head(2), PAGES_FRONT, KIDS_KEY, 3, PAGES_BACK);
  }

  lemma PageRefersToContent(pdf: string, at: nat)
    requires StartsAt(pdf, at, Head(3) + PAGE)
    ensures Reference(pdf, at, CONTENTS_KEY) == Some(4)
  {
    DigitsAre();
    ContentsKeyIsNew();
    ObjectRefers(pdf, at, Head(3), PAGE_FRONT, CONTENTS_KEY, 4, PAGE_MIDDLE + FONT_KEY + "5" + REF + PAGE_BACK);
  }

  lemma PageRefersToFont(pdf: string, at: nat)
    requires StartsAt(pdf, at, Head(3) + PAGE)
    ensures Reference(pdf, at, FONT_KEY) == Some(5)
  {
    DigitsAre();
    FontKeyIsNew();
    SecondKey(pdf, at, Head(3), PAGE_FRONT, CONTENTS_KEY, Decimal(4), REF, PAGE_MIDDLE, FONT_KEY, 5, PAGE_BACK);
  }

  lemma SecondKey(pdf: string, at: nat, head: string, front: string, key: string, d: string, ref: string,
                  middle: string, second: string, n: nat, back: string)
    requires StartsAt(pdf, at, head + (front + key + d + ref + (middle + second + Decimal(n) + REF + back)))
    requires |second| >= 2 && second[0] != second[1] && second[1] !in head + front + key + d + ref + middle
    ensures Reference(pdf, at, second) == Some(n)
  {
    var pre := head + front + key + d + ref + middle;
    assert head + (front + key + d + ref + (middle + second + Decimal(n) + REF + back)) == pre + second + Decimal(n) + REF + back;
    ReferenceIsRead(pdf, at, pre, second, n, back);
  }

  // ---- main results ----

  /** The object numbered `i + 1`, where the table says it is. */
  ghost predicate ObjectAt(pdf: string, i: nat, text: string) {
    Locate(pdf, i + 1).Some? && StartsAt(pdf, Locate(pdf, i + 1).value, text)
  }

  lemma {:induction false} ObjectIsAt(items: seq<Item>, i: nat, text: string)
    requires |Document(items)| < 10_000_000_000 && i < 5 && Objects(Content(items) + END_TEXT)[i] == text
    ensures ObjectAt(Document(items), i, text)
  {
    DocumentIsNavigable(items, i);
  }

  lemma {:induction false} StreamIsAt(items: seq<Item>)
    requires |Document(items)| < 10_000_000_000
    ensures var pdf := Document(items);
            Locate(pdf, 4).Some? && ReadStream(pdf, Locate(pdf, 4).value, 4) == Some(Content(items) + END_TEXT)
  {
    DocumentIsNavigable(items, 3);
  }

  lemma {:induction false} DocumentHasRoot(items: seq<Item>)
    requires |Document(items)| < 10_000_000_000
    ensures Root(Document(items)) == Some(1)
  {
    var objs := Objects(Content(items) + END_TEXT);
    var body := HEADER + Flatten(objs);
    OffsetsAreSmall(HEADER, objs);
    RootIsRead(Document(items), body, Offsets(|HEADER|, objs));
  }

  lemma OffsetsAreSmall(header: string, objs: seq<string>)
    requires objs != [] && |Assemble(header, objs)| < 10_000_000_000
    ensures forall o :: o in Offsets(|header|, objs) ==> o < 10_000_000_000
  {
    ObjectsAreAtOffsets(header, objs, 0);
  }

  lemma FirstPageFrom(pdf: string)
    requires Root(pdf) == Some(1)
    requires ObjectAt(pdf, 0, Head(1) + CATALOG) && ObjectAt(pdf, 1, Head(2) + PAGES) && ObjectAt(pdf, 2, Head(3) + PAGE)
    ensures FirstPage(pdf) == Some(3)
  {
    CatalogRefers(pdf, Locate(pdf, 1).value);
    PagesRefer(pdf, Locate(pdf, 2).value);
  }

  lemma PageContentFrom(pdf: string, content: string)
    requires FirstPage(pdf) == Some(3) && ObjectAt(pdf, 2, Head(3) + PAGE)
    requires Locate(pdf, 4).Some? && ReadStream(pdf, Locate(pdf, 4).value, 4) == Some(content)
    ensures PageContent(pdf) == Some(content)
  {
    PageRefersToContent(pdf, Locate(pdf, 3).value);
  }

  lemma PageFontFrom(pdf: string)
    requires FirstPage(pdf) == Some(3) && ObjectAt(pdf, 2, Head(3) + PAGE) && ObjectAt(pdf, 4, Head(5) + FONT)
    ensures PageFont(pdf).Some? && StartsAt(pdf, PageFont(pdf).value.1, Head(5) + FONT)
  {
    PageRefersToFont(pdf, Locate(pdf, 3).value);
  }

  lemma {:induction false} DocumentHasPage(items: seq<Item>)
    requires |Document(items)| < 10_000_000_000
    ensures FirstPage(Document(items)) == Some(3) && ObjectAt(Document(items), 2, Head(3) + PAGE)
  {
    DocumentHasRoot(items);
    ObjectIsAt(items, 0, Head(1) + CATALOG);
    ObjectIsAt(items, 1, Head(2) + PAGES);
    ObjectIsAt(items, 2, Head(3) + PAGE);
    FirstPageFrom(Document(items));
  }

  /** From the trailer of every document a reader gets to the one page, and from it to exactly the
      content stream and to the font object. */
  lemma {:induction false} PageIsReached(items: seq<Item>)
    requires |Document(items)| < 10_000_000_000
    ensures var pdf := Document(items);
            && PageContent(pdf) == Some(Content(items) + END_TEXT)
            && PageFont(pdf).Some? && StartsAt(pdf, PageFont(pdf).value.1, Head(5) + FONT)
  {
    DocumentHasPage(items);
    StreamIsAt(items);
    ObjectIsAt(items, 4, Head(5) + FONT);
    PageContentFrom(Document(items), Content(items) + END_TEXT);
    PageFontFrom(Document(items));
  }

  /** From the trailer on, a reader gets the title, the stamp and every field back. */
  lemma {:induction false} ReaderSeesPage(pdf: string, title: string, stamp: string, fields: map<string, string>)
    requires IsRendering(pdf, title, stamp, fields) && |pdf| < 10_000_000_000
    ensures PageContent(pdf).Some? && ShowsAll(ShownStrings(PageContent(pdf).value), title, stamp, fields)
  {
    var order :| RenderedIn(pdf, title, stamp, fields, order);
    ReaderSeesFields(pdf, title, stamp, fields);
    PageIsReached(Items(title, stamp, fields, order));
    StreamIsAt(Items(title, stamp, fields, order));
  }
}
