/** The minimal PDF writer the compiler falls back on when neither the cloud service nor
    a local TeX engine produces a document: one page showing one line of text, with the
    cross-reference table of section 7.5.4 of ISO 32000-1 (PDF 1.7). */
module PdfCompile {

  type byte = b: int | 0 <= b < 256
  type bytes = seq<byte>

  /** The bytes of a string literal; every literal of the writer is ASCII, so each
      character is its own code. */
  function Ascii(s: string): (r: bytes)
    ensures |r| == |s|
  {
    seq(|s|, i requires 0 <= i < |s| => s[i] as int % 256)
  }

  // ---------------------------------------------------------------------------
  // Decimal numerals

  predicate IsDigitByte(b: byte) { '0' as int <= b <= '9' as int }

  /** `str(n).encode()`: the decimal digits of `n`, most significant first. */
  function Decimal(n: nat): (ds: bytes)
    ensures 1 <= |ds|
    ensures forall i :: 0 <= i < |ds| ==> IsDigitByte(ds[i])
  {
    if n < 10 then [n + '0' as int] else Decimal(n / 10) + [n % 10 + '0' as int]
  }

  /** The number a string of decimal digits denotes. */
  function ValueOf(ds: bytes): int
  {
    if |ds| == 0 then 0 else ValueOf(ds[..|ds| - 1]) * 10 + (ds[|ds| - 1] - '0' as int)
  }

  /** Reading back the digits of `n` gives `n`. */
  lemma {:induction false} DecimalValue(n: nat)
    ensures ValueOf(Decimal(n)) == n
  {
    if n >= 10 {
      var ds := Decimal(n);
      assert ds[..|ds| - 1] == Decimal(n / 10);
      DecimalValue(n / 10);
    }
  }

  function Pow10(w: nat): (p: nat)
    ensures p >= 1
  {
    if w == 0 then 1 else 10 * Pow10(w - 1)
  }

  /** A number below `10^w` has at most `w` digits. */
  lemma {:induction false} DecimalLength(n: nat, w: nat)
    requires 1 <= w && n < Pow10(w)
    ensures |Decimal(n)| <= w
  {
    if n >= 10 {
      assert Pow10(0) == 1 && Pow10(w) == 10 * Pow10(w - 1);
      DecimalLength(n / 10, w - 1);
    }
  }

  function Zeros(m: nat): (z: bytes)
    ensures |z| == m
    ensures forall i :: 0 <= i < m ==> z[i] == '0' as int
  {
    seq(m, i => '0' as int)
  }

  /** `f"{n:0{w}}"`: the digits of `n` padded on the left with zeros to width `w`. */
  function PadZero(ds: bytes, w: nat): (r: bytes)
    ensures |r| == if |ds| >= w then |ds| else w
  {
    if |ds| >= w then ds else Zeros(w - |ds|) + ds
  }

  lemma {:induction false} ZerosValue(m: nat)
    ensures ValueOf(Zeros(m)) == 0
  {
    if m > 0 {
      assert Zeros(m)[..m - 1] == Zeros(m - 1);
      ZerosValue(m - 1);
    }
  }

  /** Leading zeros do not change the number. */
  lemma {:induction false} LeadingZerosValue(m: nat, ds: bytes)
    ensures ValueOf(Zeros(m) + ds) == ValueOf(ds)
    decreases |ds|
  {
    if |ds| == 0 {
      assert Zeros(m) + ds == Zeros(m);
      ZerosValue(m);
    } else {
      var s := Zeros(m) + ds;
      assert s[..|s| - 1] == Zeros(m) + ds[..|ds| - 1];
      LeadingZerosValue(m, ds[..|ds| - 1]);
    }
  }

  /** The zero-padded numeral of `n` still reads as `n`, and is exactly `w` digits long
      when `n` has no more than `w` digits. */
  lemma {:induction false} PadZeroValue(n: nat, w: nat)
    ensures ValueOf(PadZero(Decimal(n), w)) == n
    ensures 1 <= w && n < Pow10(w) ==> |PadZero(Decimal(n), w)| == w
  {
    DecimalValue(n);
    if |Decimal(n)| < w {
      LeadingZerosValue(w - |Decimal(n)|, Decimal(n));
    }
    if 1 <= w && n < Pow10(w) {
      DecimalLength(n, w);
    }
  }

  // ---------------------------------------------------------------------------
  // Pieces of a byte string

  /** `a + b + ...`: the pieces joined in order. */
  function Concat(ps: seq<bytes>): (r: bytes)
  {
    if |ps| == 0 then [] else Concat(ps[..|ps| - 1]) + ps[|ps| - 1]
  }

  /** `t` occurs in `s` at byte offset `i`. */
  predicate At(s: bytes, i: int, t: bytes)
  {
    0 <= i && i + |t| <= |s| && s[i..i + |t|] == t
  }

  lemma {:induction false} AtExtend(s: bytes, i: int, t: bytes, u: bytes)
    requires At(s, i, t)
    ensures At(s + u, i, t)
  {
    assert (s + u)[i..i + |t|] == s[i..i + |t|];
  }

  /** A part of a part of `s` is a part of `s`. */
  lemma {:induction false} AtWithin(s: bytes, i: int, t: bytes, j: int, u: bytes)
    requires At(s, i, t) && At(t, j, u)
    ensures At(s, i + j, u)
  {
    assert forall m :: 0 <= m < |t| ==> s[i + m] == t[m];
    assert s[i + j..i + j + |u|] == t[j..j + |u|];
  }

  lemma {:induction false} ConcatPrefixStep(ps: seq<bytes>, j: nat)
    requires 0 < j <= |ps|
    ensures Concat(ps[..j]) == Concat(ps[..j - 1]) + ps[j - 1]
  {
    assert ps[..j][..j - 1] == ps[..j - 1];
  }

  /** Piece `k` begins right after the pieces before it. */
  lemma {:induction false} PieceAt(ps: seq<bytes>, k: nat)
    requires k < |ps|
    ensures At(Concat(ps), |Concat(ps[..k])|, ps[k])
    decreases |ps|
  {
    var n := |ps| - 1;
    if k == n {
      assert ps[..k] == ps[..n];
    } else {
      PieceAt(ps[..n], k);
      assert ps[..n][..k] == ps[..k];
      AtExtend(Concat(ps[..n]), |Concat(ps[..k])|, ps[k], ps[n]);
    }
  }

  /** The last piece ends the whole. */
  lemma {:induction false} LastPiece(ps: seq<bytes>)
    requires |ps| > 0
    ensures At(Concat(ps), |Concat(ps)| - |ps[|ps| - 1]|, ps[|ps| - 1])
  {
    PieceAt(ps, |ps| - 1);
    assert ps[..|ps| - 1] == ps[..|ps| - 1];
  }

  lemma {:induction false} AtConcat(a: bytes, b: bytes)
    ensures At(a + b, 0, a) && At(a + b, |a|, b)
  {
    assert (a + b)[..|a|] == a;
    assert (a + b)[|a|..|a| + |b|] == b;
  }

  /** The first `n` bytes of `t` at offset `i` of `s` read as the same number there. */
  lemma {:induction false} ValueAt(s: bytes, i: int, t: bytes, n: nat)
    requires At(s, i, t) && n <= |t|
    ensures i + n <= |s| && ValueOf(s[i..i + n]) == ValueOf(t[..n])
  {
    assert forall m :: 0 <= m < n ==> s[i + m] == t[m];
    assert s[i..i + n] == t[..n];
  }

  lemma {:induction false} FirstPiece(ps: seq<bytes>)
    requires |ps| > 0
    ensures At(Concat(ps), 0, ps[0])
  {
    PieceAt(ps, 0);
    assert ps[..0] == [];
  }

  lemma {:induction false} SecondPiece(ps: seq<bytes>)
    requires |ps| > 1
    ensures At(Concat(ps), |ps[0]|, ps[1])
  {
    PieceAt(ps, 1);
    ConcatPrefixStep(ps, 1);
    assert ps[..0] == [];
  }

  lemma {:induction false} AtStart(s: bytes, i: int, t: bytes, u: bytes)
    requires At(s, i, t) && At(t, 0, u)
    ensures At(s, i, u)
  {
    AtWithin(s, i, t, 0, u);
  }

  /** A sequence that ends with `a + b` ends with `b`. */
  lemma {:induction false} SuffixAtEnd(s: bytes, a: bytes, b: bytes)
    requires At(s, |s| - |a + b|, a + b)
    ensures At(s, |s| - |b|, b)
  {
    AtConcat(a, b);
    AtWithin(s, |s| - |a + b|, a + b, |a|, b);
  }

  /** In a table whose pieces after the first all have the same width, piece `k + 1`
      starts `k` widths after the first piece. */
  lemma {:induction false} FixedWidthPieceAt(xs: seq<bytes>, k: nat, width: nat)
    requires 1 <= k < |xs| - 1
    requires forall j :: 1 <= j < |xs| ==> |xs[j]| == width
    ensures At(Concat(xs), |xs[0]| + width * k, xs[k + 1])
  {
    FixedWidthPosition(xs, k, width);
    PieceAt(xs, k + 1);
  }

    /** Where the parts of a five-part concatenation start. */
  lemma {:induction false} FiveParts(a: bytes, b: bytes, c: bytes, d: bytes, e: bytes)
    ensures At(a + b + c + d + e, 0, a) && At(a + b + c + d + e, |a|, b)
    ensures At(a + b + c + d + e, |a| + |b|, c) && At(a + b + c + d + e, |a| + |b| + |c| + |d|, e)
  {
    var s, s4, s3, s2 := a + b + c + d + e, a + b + c + d, a + b + c, a + b;
    AtConcat(s4, e);
    AtConcat(s3, d);
    AtConcat(s2, c);
    AtConcat(a, b);
    AtWithin(s, 0, s4, 0, s3);
    AtWithin(s, 0, s3, |s2|, c);
    AtWithin(s, 0, s3, 0, s2);
    AtWithin(s, 0, s2, 0, a);
    AtWithin(s, 0, s2, |a|, b);
  }

  lemma {:induction false} ThreeAt(s: bytes, i: int, a: bytes, b: bytes, c: bytes)
    requires At(s, i, a + b + c)
    ensures At(s, i, a) && At(s, i + |a|, b) && At(s, i + |a| + |b|, c)
  {
    AtConcat(a + b, c);
    AtConcat(a, b);
    AtWithin(s, i, a + b + c, |a| + |b|, c);
    AtWithin(s, i, a + b + c, 0, a + b);
    AtWithin(s, i, a + b, 0, a);
    AtWithin(s, i, a + b, |a|, b);
  }

  /** In a table whose first two pieces are `first` and `second` bytes long and whose
      other pieces are `width` bytes long, piece `k + 1` starts after `k - 1` full
      pieces. */
  lemma {:induction false} FixedWidthPosition(xs: seq<bytes>, k: nat, width: nat)
    requires 1 <= k < |xs| - 1
    requires forall j :: 1 <= j < |xs| ==> |xs[j]| == width
    ensures |Concat(xs[..k + 1])| == |xs[0]| + width * k
    decreases k
  {
    ConcatPrefixStep(xs, k + 1);
    if k == 1 {
      ConcatPrefixStep(xs, 1);
      assert xs[..0] == [];
    } else {
      FixedWidthPosition(xs, k - 1, width);
    }
  }

  // ---------------------------------------------------------------------------
  // The document

  const Header: bytes := Ascii("%PDF-1.4\n")
  const ObjKeyword: bytes := Ascii(" 0 obj")
  const LengthKey: bytes := Ascii("<< /Length ")
  const StreamKey: bytes := Ascii(" >>stream\n")
  const EndStream: bytes := Ascii("\nendstream endobj\n")
  const XrefKeyword: bytes := Ascii("xref")
  const XrefStart: bytes := XrefKeyword + Ascii("\n0 6\n")
  const FreeEntry: bytes := Ascii("0000000000 65535 f \n")
  const EntryTail: bytes := Ascii(" 00000 n \n")
  const Eof: bytes := Ascii("\n%%EOF")

  /** The longer fixed texts of the document: what follows the `k 0 obj` line of the
      catalog (1), the page tree (2), the page (3) and the font (5); the text-showing
      operators around the body in the content stream; and the trailer dictionary up to
      the `startxref` number. The layout lemmas below hold whatever these texts are. */
  datatype FixedTexts = FixedTexts(catalog: bytes, pages: bytes, page: bytes, font: bytes,
                                   showOpen: bytes, showClose: bytes, trailer: bytes)

  /** The texts `_simple_pdf_bytes` writes. */
  const WriterTexts: FixedTexts := FixedTexts(
    Ascii("<< /Type /Catalog /Pages 2 0 R >>endobj\n"),
    Ascii("<< /Type /Pages /Kids [3 0 R] /Count 1 >>endobj\n"),
    Ascii("<< /Type /Page /Parent 2 0 R /MediaBox [0 0 612 792] /Contents 4 0 R /Resources<< /Font<< /F1 5 0 R >> >> >>endobj\n"),
    Ascii("<< /Type /Font /Subtype /Type1 /BaseFont /Helvetica >>endobj\n"),
    Ascii("BT /F1 12 Tf 72 720 Td ("),
    Ascii(") Tj ET"),
    Ascii("trailer<< /Size 6 /Root 1 0 R >>\nstartxref\n"))

  /** `"k 0 obj"`: the line that opens indirect object `k`. */
  function ObjHead(k: nat): (r: bytes)
    ensures |r| == |Decimal(k)| + 6
  {
    Decimal(k) + ObjKeyword
  }

  const OpenParen := '(' as int
  const CloseParen := ')' as int

  /** `s.replace(bytes([a]), bytes([b]))` */
  function ReplaceByte(s: bytes, a: byte, b: byte): (r: bytes)
    ensures |r| == |s|
    ensures forall i :: 0 <= i < |s| ==> r[i] == if s[i] == a then b else s[i]
  {
    seq(|s|, i requires 0 <= i < |s| => if s[i] == a then b else s[i])
  }

  /** `body.replace(b"(", b"[").replace(b")", b"]")` */
  function Escape(body: bytes): bytes
  {
    ReplaceByte(ReplaceByte(body, OpenParen, '[' as int), CloseParen, ']' as int)
  }

  /** The escaped body has no parenthesis left to end the text string early, and is
      otherwise the body byte for byte. */
  lemma {:induction false} EscapeMeaning(body: bytes)
    ensures |Escape(body)| == |body|
    ensures forall i :: 0 <= i < |body| ==> Escape(body)[i] != OpenParen && Escape(body)[i] != CloseParen
    ensures forall i :: 0 <= i < |body| ==>
      Escape(body)[i] == if body[i] == OpenParen then '[' as int else if body[i] == CloseParen then ']' as int else body[i]
    ensures Escape(Escape(body)) == Escape(body)
  {
  }

  /** `stream`: show the escaped body as one text string. */
  function Stream(f: FixedTexts, body: bytes): bytes
  {
    f.showOpen + Escape(body) + f.showClose
  }

  /** What follows the `4 0 obj` line: the content stream with its `/Length`. */
  function StreamObjectText(f: FixedTexts, body: bytes): bytes
  {
    LengthKey + Decimal(|Stream(f, body)|) + StreamKey + Stream(f, body) + EndStream
  }

  /** `objK`: object `k`, its `k 0 obj` line followed by its dictionary. */
  function Object(f: FixedTexts, body: bytes, k: nat): bytes
  {
    ObjHead(k) +
      if k == 1 then f.catalog
      else if k == 2 then f.pages
      else if k == 3 then f.page
      else if k == 4 then StreamObjectText(f, body)
      else f.font
  }

  /** The header and the five objects, in file order. */
  function ObjectPieces(f: FixedTexts, body: bytes): (ps: seq<bytes>)
    ensures |ps| == 6
    ensures ps[0] == Header
    ensures forall k :: 1 <= k < 6 ==> ps[k] == Object(f, body, k)
  {
    seq(6, k requires 0 <= k < 6 => if k == 0 then Header else Object(f, body, k))
  }

  /** `len(header + obj1 + ... )`: the byte offset at which object `k` begins. */
  function ObjectOffset(f: FixedTexts, body: bytes, k: nat): nat
    requires 1 <= k <= 5
  {
    |Concat(ObjectPieces(f, body)[..k])|
  }

  /** `xref_offset`: the byte offset at which the cross-reference table begins. */
  function XrefOffset(f: FixedTexts, body: bytes): nat
  {
    |Concat(ObjectPieces(f, body))|
  }

  /** `_xref_entry(offset)`: a 10-digit zero-padded offset, generation 0, in use. */
  function XrefEntry(offset: nat): bytes
  {
    PadZero(Decimal(offset), 10) + EntryTail
  }

  /** The pieces of the cross-reference table: its first line, the free entry of
      object 0 and one entry for each of objects 1 to 5. */
  function XrefPieces(f: FixedTexts, body: bytes): (ps: seq<bytes>)
    ensures |ps| == 7
    ensures ps[0] == XrefStart && ps[1] == FreeEntry
    ensures forall j :: 2 <= j < 7 ==> ps[j] == XrefEntry(ObjectOffset(f, body, j - 1))
  {
    seq(7, j requires 0 <= j < 7 =>
      if j == 0 then XrefStart else if j == 1 then FreeEntry else XrefEntry(ObjectOffset(f, body, j - 1)))
  }

  function Trailer(f: FixedTexts, body: bytes): bytes
  {
    f.trailer + Decimal(XrefOffset(f, body)) + Eof
  }

  /** Header, objects, table and trailer, in that order. */
  function Document(f: FixedTexts, body: bytes): bytes
  {
    Concat(ObjectPieces(f, body) + [Concat(XrefPieces(f, body)), Trailer(f, body)])
  }

  /** `_simple_pdf_bytes(body)` */
  function SimplePdf(body: bytes): bytes
  {
    Document(WriterTexts, body)
  }

  // ---------------------------------------------------------------------------
  // Properties of the document, for any fixed texts

  lemma {:induction false} AsciiLengths()
    ensures |Header| == 9 && |ObjKeyword| == 6 && |XrefKeyword| == 4 && |XrefStart| == 9
    ensures |FreeEntry| == 20 && |EntryTail| == 10 && |Eof| == 6
  {
  }

  /** The header opens the file, the table sits at the offset the writer computes for
      it, and the trailer ends the file. */
  lemma {:induction false} DocumentParts(f: FixedTexts, body: bytes)
    ensures At(Document(f, body), 0, Header)
    ensures At(Document(f, body), XrefOffset(f, body), Concat(XrefPieces(f, body)))
    ensures At(Document(f, body), |Document(f, body)| - |Trailer(f, body)|, Trailer(f, body))
  {
    var ps := ObjectPieces(f, body) + [Concat(XrefPieces(f, body)), Trailer(f, body)];
    FirstPiece(ps);
    PieceAt(ps, 6);
    assert ps[..6] == ObjectPieces(f, body);
    LastPiece(ps);
  }

  /** Each object sits at the offset the writer computes for it. */
  lemma {:induction false} ObjectPart(f: FixedTexts, body: bytes, k: nat)
    requires 1 <= k <= 5
    ensures At(Document(f, body), ObjectOffset(f, body, k), Object(f, body, k))
  {
    var ps := ObjectPieces(f, body) + [Concat(XrefPieces(f, body)), Trailer(f, body)];
    PieceAt(ps, k);
    assert ps[..k] == ObjectPieces(f, body)[..k];
  }

  /** The file starts with the `%PDF-1.4` header line and ends with `%%EOF`. */
  lemma {:induction false} DocumentFrame(f: FixedTexts, body: bytes)
    ensures At(Document(f, body), 0, Header)
    ensures At(Document(f, body), |Document(f, body)| - |Eof|, Eof)
  {
    DocumentParts(f, body);
    SuffixAtEnd(Document(f, body), f.trailer + Decimal(XrefOffset(f, body)), Eof);
  }

  /** The trailer is the `startxref` text, then a number that reads as the byte offset
      of the cross-reference table, then `%%EOF`; `DocumentParts` puts it at the end of
      the file. */
  lemma {:induction false} StartXrefNumber(f: FixedTexts, body: bytes)
    ensures At(Trailer(f, body), 0, f.trailer)
    ensures At(Trailer(f, body), |f.trailer|, Decimal(XrefOffset(f, body)))
    ensures At(Trailer(f, body), |f.trailer| + |Decimal(XrefOffset(f, body))|, Eof)
    ensures ValueOf(Decimal(XrefOffset(f, body))) == XrefOffset(f, body)
  {
    assert At(Trailer(f, body), 0, Trailer(f, body));
    ThreeAt(Trailer(f, body), 0, f.trailer, Decimal(XrefOffset(f, body)), Eof);
    DecimalValue(XrefOffset(f, body));
  }

  /** The `xref` keyword sits at the offset the trailer records. */
  lemma {:induction false} XrefKeywordAtOffset(f: FixedTexts, body: bytes)
    ensures At(Document(f, body), XrefOffset(f, body), XrefKeyword)
  {
    DocumentParts(f, body);
    var xs := XrefPieces(f, body);
    FirstPiece(xs);
    AtConcat(XrefKeyword, Ascii("\n0 6\n"));
    AtStart(Concat(xs), 0, XrefStart, XrefKeyword);
    AtStart(Document(f, body), XrefOffset(f, body), Concat(xs), XrefKeyword);
  }

  /** The table's first entry is the free head of object 0. */
  lemma {:induction false} FreeEntryFirst(f: FixedTexts, body: bytes)
    ensures At(Document(f, body), XrefOffset(f, body) + |XrefStart|, FreeEntry)
  {
    var xs := XrefPieces(f, body);
    DocumentParts(f, body);
    SecondPiece(xs);
    AtWithin(Document(f, body), XrefOffset(f, body), Concat(xs), |XrefStart|, FreeEntry);
  }

  /** Object `k` begins with its `k 0 obj` line at the offset recorded for it. */
  lemma {:induction false} ObjectAtOffset(f: FixedTexts, body: bytes, k: nat)
    requires 1 <= k <= 5
    ensures At(Document(f, body), ObjectOffset(f, body, k), ObjHead(k))
  {
    ObjectPart(f, body, k);
    var o := Object(f, body, k);
    AtConcat(ObjHead(k), o[|ObjHead(k)|..]);
    assert o == ObjHead(k) + o[|ObjHead(k)|..];
    AtStart(Document(f, body), ObjectOffset(f, body, k), o, ObjHead(k));
  }

  /** A longer prefix of the pieces is at least as long. */
  lemma {:induction false} ConcatPrefixMonotone(ps: seq<bytes>, k: nat, j: nat)
    requires k <= j <= |ps|
    ensures |Concat(ps[..k])| <= |Concat(ps[..j])|
    decreases j
  {
    if k < j {
      ConcatPrefixStep(ps, j);
      ConcatPrefixMonotone(ps, k, j - 1);
    }
  }

  /** Every object begins before the table. */
  lemma {:induction false} OffsetsBelow(f: FixedTexts, body: bytes, k: nat)
    requires 1 <= k <= 5
    ensures ObjectOffset(f, body, k) <= XrefOffset(f, body)
  {
    var ps := ObjectPieces(f, body);
    ConcatPrefixMonotone(ps, k, 6);
    assert ps[..6] == ps;
  }

  /** An entry is 20 bytes long and its first ten read back as the offset, while the
      offset is below 10^10. */
  lemma {:induction false} XrefEntryReads(offset: nat)
    requires offset < Pow10(10)
    ensures |XrefEntry(offset)| == 20
    ensures ValueOf(XrefEntry(offset)[..10]) == offset
    ensures At(XrefEntry(offset), 10, EntryTail)
  {
    PadZeroValue(offset, 10);
    var pad := PadZero(Decimal(offset), 10);
    AtConcat(pad, EntryTail);
    assert XrefEntry(offset)[..10] == pad;
  }

  /** Every entry of the table is 20 bytes long while the offsets stay below 10^10. */
  lemma {:induction false} EntriesAreTwentyBytes(f: FixedTexts, body: bytes)
    requires XrefOffset(f, body) < Pow10(10)
    ensures forall j :: 1 <= j < 7 ==> |XrefPieces(f, body)[j]| == 20
  {
    var xs := XrefPieces(f, body);
    forall j | 1 <= j < 7 ensures |xs[j]| == 20 {
      if j >= 2 {
        OffsetsBelow(f, body, j - 1);
        XrefEntryReads(ObjectOffset(f, body, j - 1));
      } else {
        AsciiLengths();
      }
    }
  }

  /** Entry `k` of the table sits `20 * k` bytes after the free entry's start, while
      every offset is below 10^10. */
  lemma {:induction false} EntryAt(f: FixedTexts, body: bytes, k: nat)
    requires 1 <= k <= 5
    requires XrefOffset(f, body) < Pow10(10)
    ensures At(Concat(XrefPieces(f, body)), |XrefStart| + 20 * k, XrefEntry(ObjectOffset(f, body, k)))
  {
    var xs := XrefPieces(f, body);
    EntriesAreTwentyBytes(f, body);
    FixedWidthPieceAt(xs, k, 20);
  }

  /** Entry `k` of the cross-reference table (the `k`-th after the free entry) holds the
      10-digit offset at which object `k` begins (see `ObjectAtOffset`), followed by
      ` 00000 n `, while that offset is below 10^10. The table itself sits at
      `XrefOffset` (see `DocumentParts`). */
  lemma {:induction false} XrefEntryPointsAtObject(f: FixedTexts, body: bytes, k: nat)
    requires 1 <= k <= 5
    requires XrefOffset(f, body) < Pow10(10)
    ensures |XrefStart| + 20 * k + 10 <= |Concat(XrefPieces(f, body))|
    ensures ValueOf(Concat(XrefPieces(f, body))[|XrefStart| + 20 * k..|XrefStart| + 20 * k + 10]) == ObjectOffset(f, body, k)
    ensures At(Concat(XrefPieces(f, body)), |XrefStart| + 20 * k + 10, EntryTail)
  {
    var o := ObjectOffset(f, body, k);
    EntryAt(f, body, k);
    OffsetsBelow(f, body, k);
    XrefEntryReads(o);
    ValueAt(Concat(XrefPieces(f, body)), |XrefStart| + 20 * k, XrefEntry(o), 10);
    AtWithin(Concat(XrefPieces(f, body)), |XrefStart| + 20 * k, XrefEntry(o), 10, EntryTail);
  }

  /** The `/Length` of the content stream is the number of bytes between `stream` and
      `endstream`: the digits after `/Length` read as the length of the stream, and
      skipping that many bytes after the stream keyword lands on the `endstream`
      line. Object 4 is its `4 0 obj` line followed by this text. */
  lemma {:induction false} LengthMatchesStream(f: FixedTexts, body: bytes)
    ensures Object(f, body, 4) == ObjHead(4) + StreamObjectText(f, body)
    ensures ValueOf(Decimal(|Stream(f, body)|)) == |Stream(f, body)|
    ensures At(StreamObjectText(f, body), 0, LengthKey)
    ensures At(StreamObjectText(f, body), |LengthKey|, Decimal(|Stream(f, body)|))
    ensures At(StreamObjectText(f, body), |LengthKey| + |Decimal(|Stream(f, body)|)|, StreamKey)
    ensures At(StreamObjectText(f, body), |LengthKey| + |Decimal(|Stream(f, body)|)| + |StreamKey| + |Stream(f, body)|, EndStream)
  {
    FiveParts(LengthKey, Decimal(|Stream(f, body)|), StreamKey, Stream(f, body), EndStream);
    DecimalValue(|Stream(f, body)|);
  }

  /** The body appears, escaped, inside the text string of the content stream. */
  lemma {:induction false} BodyInStream(f: FixedTexts, body: bytes)
    ensures At(Stream(f, body), 0, f.showOpen)
    ensures At(Stream(f, body), |f.showOpen|, Escape(body))
    ensures At(Stream(f, body), |f.showOpen| + |Escape(body)|, f.showClose)
  {
    AtConcat(f.showOpen + Escape(body), f.showClose);
    ThreeAt(Stream(f, body), 0, f.showOpen, Escape(body), f.showClose);
  }
}
