/** A PDF file put together from numbered objects, and a reader that finds its way from the end of
    the file to an object and to the bytes of a stream (ISO 32000-1, sections 7.5.4, 7.5.5 and
    7.3.8.2). */
module PdfFile {
  import opened Wrappers
  import opened PdfSyntax

  const ENTRY_WIDTH := 20
  const XREF_WORD := "xref\n0 "
  const LINE_END := "\n"
  const FREE_ENTRY := "0000000000 65535 f \n"
  const ENTRY_END := " 00000 n \n"
  const TRAILER_WORD := "trailer\n<< /Size "
  const ROOT_KEY := " /Root "
  const REF := " 0 R"
  const ROOT_END := " >>\n"
  const ROOT_WORD := ROOT_KEY + "1" + REF + ROOT_END
  const STARTXREF := "startxref\n"
  const EOF := "\n%%EOF\n"
  const OBJ_WORD := " 0 obj\n"
  const LENGTH_WORD := "<< /Length "
  const STREAM_WORD := " >>\nstream\n"
  const ENDSTREAM := "\nendstream"
  const ENDOBJ := "\nendobj\n"

  // ---- writing ----

  function Flatten(objs: seq<string>): string {
    if objs == [] then [] else Flatten(objs[..|objs| - 1]) + objs[|objs| - 1]
  }

  /** Where each object starts when they follow a prefix of length `base`. */
  function Offsets(base: nat, objs: seq<string>): (o: seq<nat>)
    ensures |o| == |objs|
  {
    if objs == [] then []
    else Offsets(base, objs[..|objs| - 1]) + [base + |Flatten(objs[..|objs| - 1])|]
  }

  function Entry(offset: nat): string { Padded(offset, 10) + ENTRY_END }

  function Entries(offsets: seq<nat>): string {
    if offsets == [] then [] else Entries(offsets[..|offsets| - 1]) + Entry(offsets[|offsets| - 1])
  }

  function XrefWith(count: nat, entries: string): string {
    XREF_WORD + Decimal(count) + LINE_END + (FREE_ENTRY + entries)
  }

  function XrefTable(offsets: seq<nat>): string { XrefWith(|offsets| + 1, Entries(offsets)) }

  function Trailer(size: nat, xref: nat): string {
    TRAILER_WORD + Decimal(size) + ROOT_WORD + (STARTXREF + Decimal(xref) + EOF)
  }

  function Assemble(header: string, objs: seq<string>): string {
    var body := header + Flatten(objs);
    body + XrefTable(Offsets(|header|, objs)) + Trailer(|objs| + 1, |body|)
  }

  function Head(number: nat): string { Decimal(number) + OBJ_WORD }

  function StreamObject(number: nat, content: string): string {
    Head(number) + LENGTH_WORD + Decimal(|content|) + STREAM_WORD + (content + ENDSTREAM + ENDOBJ)
  }

  // ---- reading ----

  /** The last lines of the file are startxref, a number, and the end marker. */
  function FindXref(pdf: string): Option<nat> { NumberBefore(pdf, STARTXREF, EOF) }

  /** The table at `xref`: how many entries its one section has, and where they begin. */
  function ReadXrefHeader(pdf: string, xref: nat): Option<(nat, nat)> {
    NumberAfter(pdf, xref, XREF_WORD, LINE_END)
  }

  /** Entry `number`: 20 bytes, of which the first ten are the offset of an object in use. */
  function ReadEntry(pdf: string, entries: nat, number: nat): Option<nat> {
    var at := entries + ENTRY_WIDTH * number;
    if at + ENTRY_WIDTH > |pdf| || !AllDigits(pdf[at..at + 10]) || !StartsAt(pdf, at + 10, ENTRY_END) then None
    else Some(Value(pdf[at..at + 10]))
  }

  /** From the end of the file to the offset of an object that the table says is in use. */
  function Locate(pdf: string, number: nat): Option<nat> {
    match FindXref(pdf)
    case None => None
    case Some(xref) =>
      match ReadXrefHeader(pdf, xref)
      case None => None
      case Some((count, entries)) =>
        if number >= count then None
        else
          match ReadEntry(pdf, entries, number)
          case None => None
          case Some(at) => if StartsAt(pdf, at, Head(number)) then Some(at) else None
  }

  /** The bytes of the stream object at `at`: as many as its dictionary says, then endstream. */
  function ReadStream(pdf: string, at: nat, number: nat): Option<string> {
    match NumberAfter(pdf, at, Head(number) + LENGTH_WORD, STREAM_WORD)
    case None => None
    case Some((length, start)) =>
      if StartsAt(pdf, start + length, ENDSTREAM) then Some(pdf[start..start + length]) else None
  }

  // ---- what the reader finds ----

  lemma WordAt(a: string, w: string, b: string)
    ensures StartsAt(a + w + b, |a|, w)
  {
  }

  lemma WordStays(s: string, at: nat, w: string, b: string)
    requires StartsAt(s, at, w)
    ensures StartsAt(s + b, at, w)
  {
    assert (s + b)[at..at + |w|] == s[at..at + |w|];
  }

  lemma WordShifts(a: string, s: string, at: nat, w: string)
    requires StartsAt(s, at, w)
    ensures StartsAt(a + s, |a| + at, w)
  {
    assert (a + s)[|a| + at..|a| + at + |w|] == s[at..at + |w|];
  }

  /** Every entry is 20 bytes if and only if its offset has at most ten digits. */
  lemma EntryWidth(offset: nat)
    ensures |Entry(offset)| == ENTRY_WIDTH <==> offset < 10_000_000_000
  {
    PaddedReads(offset, 10);
    assert Pow10(2) == 100 && Pow10(4) == 10_000 && Pow10(10) == 10_000_000_000;
  }

  lemma AfterEntries(s: string, e: string)
    ensures StartsAt(s + e, |s|, e)
  {
  }

  lemma {:induction false} EntriesWidth(offsets: seq<nat>)
    requires forall o :: o in offsets ==> o < 10_000_000_000
    ensures |Entries(offsets)| == ENTRY_WIDTH * |offsets|
  {
    if offsets != [] {
      var n := |offsets| - 1;
      assert offsets[n] in offsets;
      EntryWidth(offsets[n]);
      assert forall o :: o in offsets[..n] ==> o in offsets;
      EntriesWidth(offsets[..n]);
    }
  }

  lemma {:induction false} EntriesAre(offsets: seq<nat>, i: nat)
    requires i < |offsets| && forall o :: o in offsets ==> o < 10_000_000_000
    ensures StartsAt(Entries(offsets), ENTRY_WIDTH * i, Entry(offsets[i]))
  {
    var n := |offsets| - 1;
    var before := Entries(offsets[..n]);
    assert forall o :: o in offsets[..n] ==> o in offsets;
    if i < n {
      EntriesAre(offsets[..n], i);
      WordStays(before, ENTRY_WIDTH * i, Entry(offsets[i]), Entry(offsets[n]));
    } else {
      EntriesWidth(offsets[..n]);
      AfterEntries(before, Entry(offsets[n]));
    }
  }

  lemma EntryIsRead(pdf: string, entries: nat, number: nat, offset: nat)
    requires StartsAt(pdf, entries + ENTRY_WIDTH * number, Entry(offset)) && offset < 10_000_000_000
    ensures ReadEntry(pdf, entries, number) == Some(offset)
  {
    var at := entries + ENTRY_WIDTH * number;
    EntryWidth(offset);
    PaddedReads(offset, 10);
    var e := pdf[at..at + ENTRY_WIDTH];
    assert e == Entry(offset);
    assert pdf[at..at + 10] == e[..10] == Padded(offset, 10);
    assert pdf[at + 10..at + 20] == e[10..] == ENTRY_END;
  }

  lemma {:induction false} ObjectsAreAtOffsets(header: string, objs: seq<string>, i: nat)
    requires i < |objs|
    ensures StartsAt(header + Flatten(objs), Offsets(|header|, objs)[i], objs[i])
    ensures forall o :: o in Offsets(|header|, objs) ==> o <= |header| + |Flatten(objs)|
  {
    var n := |objs| - 1;
    var front := header + Flatten(objs[..n]);
    assert header + Flatten(objs) == front + objs[n];
    if n > 0 {
      ObjectsAreAtOffsets(header, objs[..n], if i < n then i else 0);
    }
    if i < n {
      WordStays(front, Offsets(|header|, objs[..n])[i], objs[i], objs[n]);
    } else {
      WordAt(front, objs[n], "");
      assert front + objs[n] + "" == front + objs[n];
    }
  }

  /** Where the entries of a table at `xref` begin. */
  function EntriesAt(xref: nat, count: nat): nat { xref + |XREF_WORD| + |Decimal(count)| + |LINE_END| }

  /** Every entry stands where the reader looks for it. */
  lemma EntryPlace(a: string, offsets: seq<nat>, i: nat, b: string)
    requires i < |offsets| && forall o :: o in offsets ==> o < 10_000_000_000
    ensures StartsAt(a + XrefTable(offsets) + b, EntriesAt(|a|, |offsets| + 1) + ENTRY_WIDTH * (i + 1), Entry(offsets[i]))
  {
    EntriesAre(offsets, i);
    FreeEntryWidth();
    EntryPlaceIn(a, XREF_WORD, Decimal(|offsets| + 1), LINE_END, FREE_ENTRY, Entries(offsets), i, Entry(offsets[i]), b);
  }

  lemma FreeEntryWidth()
    ensures |FREE_ENTRY| == ENTRY_WIDTH
  {
  }

  lemma EntryPlaceIn(a: string, w: string, d: string, l: string, free: string, entries: string, i: nat, e: string, b: string)
    requires StartsAt(entries, ENTRY_WIDTH * i, e) && |free| == ENTRY_WIDTH
    ensures StartsAt(a + (w + d + l + (free + entries)) + b, |a| + |w| + |d| + |l| + ENTRY_WIDTH * (i + 1), e)
  {
    var at := ENTRY_WIDTH * i;
    var head := a + w + d + l + free;
    WordShifts(head, entries, at, e);
    WordStays(head + entries, |head| + at, e, b);
    assert a + (w + d + l + (free + entries)) + b == head + entries + b;
  }

  /** startxref decodes to the offset of the table. */
  lemma XrefIsFound(a: string, size: nat, xref: nat)
    ensures FindXref(a + Trailer(size, xref)) == Some(xref)
  {
    var t := TRAILER_WORD + Decimal(size) + ROOT_WORD;
    EndsWith(a, t, STARTXREF, Decimal(xref), EOF);
    Places(a + t, STARTXREF, Decimal(xref), EOF, "");
    NumberBeforeReads(a + Trailer(size, xref), |a + t|, STARTXREF, xref, EOF);
  }

  /** The table's header decodes to its count. */
  lemma CountIsRead(a: string, offsets: seq<nat>, b: string)
    ensures ReadXrefHeader(a + XrefTable(offsets) + b, |a|)
            == Some((|offsets| + 1, EntriesAt(|a|, |offsets| + 1)))
  {
    var size, rest := Decimal(|offsets| + 1), FREE_ENTRY + Entries(offsets);
    Middle(a, XREF_WORD, size, LINE_END, rest, b);
    Places(a, XREF_WORD, size, LINE_END, rest + b);
    NumberAfterReads(a + XrefTable(offsets) + b, |a|, XREF_WORD, |offsets| + 1, LINE_END);
  }

  lemma EndsWith(a: string, t: string, w: string, d: string, e: string)
    ensures a + (t + (w + d + e)) == a + t + w + d + e + ""
  {
  }

  lemma Middle(a: string, w: string, d: string, l: string, rest: string, t: string)
    ensures a + (w + d + l + rest) + t == a + w + d + l + (rest + t)
  {
  }

  /** A reader that starts from the end of the file finds every object where it is. */
  lemma {:induction false} EveryObjectIsFound(header: string, objs: seq<string>, i: nat)
    requires i < |objs| && |Assemble(header, objs)| < 10_000_000_000
    requires StartsAt(objs[i], 0, Head(i + 1))
    ensures var pdf := Assemble(header, objs);
            && Locate(pdf, i + 1) == Some(Offsets(|header|, objs)[i])
            && StartsAt(pdf, Offsets(|header|, objs)[i], objs[i])
  {
    var body, offsets := header + Flatten(objs), Offsets(|header|, objs);
    ObjectsAreAtOffsets(header, objs, i);
    FoundInTable(Assemble(header, objs), body, offsets, Trailer(|objs| + 1, |body|), i);
    XrefIsFound(body + XrefTable(offsets), |objs| + 1, |body|);
    PartAt(body, offsets[i], objs[i], 0, Head(i + 1));
    Tail(body, XrefTable(offsets), Trailer(|objs| + 1, |body|), offsets[i], objs[i]);
    Tail(body, XrefTable(offsets), Trailer(|objs| + 1, |body|), offsets[i], Head(i + 1));
  }

  lemma Tail(body: string, table: string, trailer: string, at: nat, w: string)
    requires StartsAt(body, at, w)
    ensures StartsAt(body + table + trailer, at, w)
  {
    WordStays(body, at, w, table);
    WordStays(body + table, at, w, trailer);
  }

  /** The table at the end of `body` leads to the offset it records. */
  lemma FoundInTable(pdf: string, body: string, offsets: seq<nat>, trailer: string, i: nat)
    requires pdf == body + XrefTable(offsets) + trailer
    requires i < |offsets| && forall o :: o in offsets ==> o < 10_000_000_000
    ensures ReadXrefHeader(pdf, |body|) == Some((|offsets| + 1, EntriesAt(|body|, |offsets| + 1)))
    ensures ReadEntry(pdf, EntriesAt(|body|, |offsets| + 1), i + 1) == Some(offsets[i])
  {
    CountIsRead(body, offsets, trailer);
    EntryPlace(body, offsets, i, trailer);
    EntryIsReadAt(pdf, EntriesAt(|body|, |offsets| + 1), offsets, i);
  }

  lemma EntryIsReadAt(pdf: string, entries: nat, offsets: seq<nat>, i: nat)
    requires i < |offsets| && forall o :: o in offsets ==> o < 10_000_000_000
    requires StartsAt(pdf, entries + ENTRY_WIDTH * (i + 1), Entry(offsets[i]))
    ensures ReadEntry(pdf, entries, i + 1) == Some(offsets[i])
  {
    assert offsets[i] in offsets;
    EntryIsRead(pdf, entries, i + 1, offsets[i]);
  }

  /** The stream's declared length is the number of bytes between the markers. */
  lemma StreamIsRead(pdf: string, at: nat, number: nat, content: string)
    requires StartsAt(pdf, at, StreamObject(number, content))
    ensures ReadStream(pdf, at, number) == Some(content)
  {
    MeasuredContent(pdf, at, Head(number) + LENGTH_WORD, STREAM_WORD, content, ENDSTREAM, ENDOBJ);
  }

  lemma MeasuredParts(pdf: string, at: nat, word: string, d: string, s: string, content: string, e: string, o: string)
    requires StartsAt(pdf, at, word + d + s + (content + e + o))
    ensures StartsAt(pdf, at, word) && StartsAt(pdf, at + |word|, d) && StartsAt(pdf, at + |word| + |d|, s)
    ensures StartsAt(pdf, at + |word| + |d| + |s|, content)
    ensures StartsAt(pdf, at + |word| + |d| + |s| + |content|, e)
  {
    var obj := word + d + s + (content + e + o);
    StreamParts(word, d, s, content, e, o);
    PartAt(pdf, at, obj, 0, word);
    PartAt(pdf, at, obj, |word|, d);
    PartAt(pdf, at, obj, |word| + |d|, s);
    PartAt(pdf, at, obj, |word| + |d| + |s|, content);
    PartAt(pdf, at, obj, |word| + |d| + |s| + |content|, e);
  }

  lemma MeasuredContent(pdf: string, at: nat, word: string, s: string, content: string, e: string, o: string)
    requires StartsAt(pdf, at, word + Decimal(|content|) + s + (content + e + o))
    requires s != [] && !IsDigit(s[0])
    ensures var start := at + |word| + |Decimal(|content|)| + |s|;
            && NumberAfter(pdf, at, word, s) == Some((|content|, start))
            && StartsAt(pdf, start, content) && StartsAt(pdf, start + |content|, e)
  {
    MeasuredParts(pdf, at, word, Decimal(|content|), s, content, e, o);
    NumberAfterReads(pdf, at, word, |content|, s);
  }

  lemma StreamParts(word: string, d: string, s: string, content: string, e: string, o: string)
    ensures var obj := word + d + s + (content + e + o);
            && StartsAt(obj, 0, word) && StartsAt(obj, |word|, d) && StartsAt(obj, |word| + |d|, s)
            && StartsAt(obj, |word| + |d| + |s|, content) && StartsAt(obj, |word| + |d| + |s| + |content|, e)
  {
    var obj := word + d + s + (content + e + o);
    Places("", word, d, s, content + e + o);
    assert "" + word + d + s + (content + e + o) == obj;
    Places(word + d + s, content, e, o, "");
    assert word + d + s + content + e + o + "" == obj;
  }

  lemma PartAt(s: string, at: nat, w: string, k: nat, p: string)
    requires StartsAt(s, at, w) && StartsAt(w, k, p)
    ensures StartsAt(s, at + k, p)
  {
    SliceOfSlice(s, at, at + |w|, k, k + |p|);
  }

  lemma SliceOfSlice(s: string, a: nat, b: nat, c: nat, d: nat)
    requires a <= b <= |s| && c <= d <= b - a
    ensures s[a..b][c..d] == s[a + c..a + d]
  {
    var whole := s[a..b];
    var part, same := whole[c..d], s[a + c..a + d];
    forall i | 0 <= i < |part| ensures part[i] == same[i] {
      assert part[i] == whole[c + i];
    }
    assert part == same;
  }
}
