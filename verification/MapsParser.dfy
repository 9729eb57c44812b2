/** Reading /proc/pid/maps: the text that the kernel prints, and the parser that edits its buffer in place. */
module MapsParser {
  import opened Machine
  import opened Paging
  import opened Layout
  import opened Decimal

  const BUFSIZ := 8192
  const NAME_SIZE := 128

  // ---- Numbers ----

  /**
   What the number parsers do from position `pos`: digits up to the delimiter or the end of the buffer,
   in 64-bit arithmetic; any other character is passed and ends the number.
   */
  function Scan(s: string, del: char, base: nat, pos: nat, val: nat): (nat, nat)
    decreases |s| - pos
  {
    if pos < |s| && s[pos] != del && pos + 1 < |s| then
      var v, d := (val * base) % TWO_TO_64, DigitValue(s[pos], base);
      if d >= 0 then Scan(s, del, base, pos + 1, (v + d) % TWO_TO_64) else (v, pos + 1)
    else (val, pos)
  }

  method ParseUntil(buffer: array<char>, del: char, base: nat, pos: nat) returns (val: nat, pos': nat)
    ensures (val, pos') == Scan(buffer[..], del, base, pos, 0)
  {
    val, pos' := 0, pos;
    while pos' < buffer.Length && buffer[pos'] != del && pos' + 1 < buffer.Length
      invariant Scan(buffer[..], del, base, pos, 0) == Scan(buffer[..], del, base, pos', val)
      decreases buffer.Length - pos'
    {
      var c := buffer[pos'];
      pos' := pos' + 1;
      val := (val * base) % TWO_TO_64;
      if DigitValue(c, base) >= 0 {
        val := (val + DigitValue(c, base)) % TWO_TO_64;
      } else {
        break;
      }
    }
  }

  function HexDigit(d: nat): char
    requires d < 16
  {
    if d < 10 then '0' + d as char else 'a' + (d - 10) as char
  }

  function Hex(n: nat): string {
    if n < 16 then [HexDigit(n)] else Hex(n / 16) + [HexDigit(n % 16)]
  }

  /** A hexadecimal number, with zeros in front if it is shorter than `width`. */
  function PadHex(n: nat, width: nat): string { Zeros(width - |Hex(n)|) + Hex(n) }

  lemma {:induction false} HexRoundTrip(n: nat)
    ensures ValueOf(Hex(n), 16) == n && DigitString(Hex(n), 16) && Hex(n) != ""
  {
    if n >= 16 {
      HexRoundTrip(n / 16);
      assert Hex(n)[..|Hex(n)| - 1] == Hex(n / 16);
    }
  }

  lemma {:induction false} LeadingZeros(k: int, s: string)
    ensures ValueOf(Zeros(k) + s, 16) == ValueOf(s, 16)
    ensures DigitString(s, 16) ==> DigitString(Zeros(k) + s, 16)
    decreases |s|
  {
    ZerosAreDigits(k);
    if s == "" {
      ZerosHaveNoValue(k);
      assert Zeros(k) + s == Zeros(k);
    } else {
      var t := Zeros(k) + s;
      assert t[..|t| - 1] == Zeros(k) + s[..|s| - 1];
      LeadingZeros(k, s[..|s| - 1]);
    }
  }

  lemma {:induction false} ZerosHaveNoValue(k: int)
    ensures ValueOf(Zeros(k), 16) == 0
    decreases k
  {
    if k > 0 {
      ZerosHaveNoValue(k - 1);
      ZerosBack(k - 1);
      assert Zeros(k)[..|Zeros(k)| - 1] == Zeros(k - 1);
    }
  }

  lemma PadHexRoundTrip(n: nat, width: nat)
    ensures ValueOf(PadHex(n, width), 16) == n && DigitString(PadHex(n, width), 16) && PadHex(n, width) != ""
  {
    HexRoundTrip(n);
    LeadingZeros(width - |Hex(n)|, Hex(n));
  }

  lemma DecRoundTrip(n: nat)
    ensures ValueOf(DigitsOf(n), 10) == n && DigitString(DigitsOf(n), 10) && DigitsOf(n) != ""
  {
    DigitsRoundTrip(n);
  }

  // ---- Pieces of a text ----

  /** `t` stands at position `x` of `s`. */
  predicate Has(s: string, x: nat, t: string) {
    x + |t| <= |s| && s[x..x + |t|] == t
  }

  lemma HasConcat(s: string, x: nat, a: string, b: string)
    requires Has(s, x, a + b)
    ensures Has(s, x, a) && Has(s, x + |a|, b)
  {
    assert s[x..x + |a|] == (a + b)[..|a|];
    assert s[x + |a|..x + |a| + |b|] == (a + b)[|a|..];
  }

  lemma ValueStep(s: string, k: nat, base: nat)
    requires base > 0 && k < |s|
    ensures ValueOf(s[..k + 1], base) ==
        ValueOf(s[..k], base) * base + if DigitValue(s[k], base) >= 0 then DigitValue(s[k], base) else 0
  {
    assert s[..k + 1][..k] == s[..k];
  }

  lemma Distributed(q: nat, r: nat, base: nat)
    ensures (TWO_TO_64 * q + r) * base == TWO_TO_64 * (q * base) + r * base
  {
    assert (TWO_TO_64 * q) * base == TWO_TO_64 * (q * base);
  }

  lemma MultiplesVanish(a: nat, b: nat, d: nat)
    ensures (b % TWO_TO_64 + d) % TWO_TO_64 == (TWO_TO_64 * a + b + d) % TWO_TO_64
  {
    var q, r := b / TWO_TO_64, b % TWO_TO_64;
    var q', r' := (r + d) / TWO_TO_64, (r + d) % TWO_TO_64;
    assert TWO_TO_64 * a + b + d == TWO_TO_64 * (a + q + q') + r';
  }

  /** Dropping whole multiples in between does not change what is left. */
  lemma WrapInBetween(v: nat, base: nat, d: nat)
    ensures ((v % TWO_TO_64 * base) % TWO_TO_64 + d) % TWO_TO_64 == (v * base + d) % TWO_TO_64
  {
    var q, r := v / TWO_TO_64, v % TWO_TO_64;
    Distributed(q, r, base);
    MultiplesVanish(q * base, r * base, d);
  }

  lemma ScanStep(s: string, del: char, base: nat, pos: nat, val: nat)
    requires pos + 1 < |s| && s[pos] != del && 0 <= DigitValue(s[pos], base)
    ensures Scan(s, del, base, pos, val % TWO_TO_64) ==
        Scan(s, del, base, pos + 1, (val * base + DigitValue(s[pos], base)) % TWO_TO_64)
  {
    hide DigitValue;
    WrapInBetween(val, base, DigitValue(s[pos], base));
  }

  lemma ScanStops(s: string, del: char, base: nat, pos: nat, val: nat)
    requires pos < |s| && s[pos] == del
    ensures Scan(s, del, base, pos, val) == (val, pos)
  {
  }

  lemma CharAt(s: string, x: nat, t: string, k: nat)
    requires Has(s, x, t) && k < |t|
    ensures s[x + k] == t[k]
  {
    assert s[x..x + |t|][k] == s[x + k];
  }

  /** Scanning reads the digits in front of the delimiter. */
  lemma {:induction false} ScanFrom(s: string, del: char, base: nat, x: nat, t: string, k: nat)
    requires 1 < base && Has(s, x, t + [del]) && DigitString(t, base) && DigitValue(del, base) < 0
    requires k <= |t|
    ensures Scan(s, del, base, x + k, ValueOf(t[..k], base) % TWO_TO_64) == (ValueOf(t, base) % TWO_TO_64, x + |t|)
    decreases |t| - k
  {
    hide Scan, ValueOf, DigitValue;
    CharAt(s, x, t + [del], k);
    if k == |t| {
      assert t[..k] == t;
      ScanStops(s, del, base, x + k, ValueOf(t, base) % TWO_TO_64);
    } else {
      ValueStep(t, k, base);
      ScanStep(s, del, base, x + k, ValueOf(t[..k], base));
      ScanFrom(s, del, base, x, t, k + 1);
    }
  }

  /** Whatever number stands in front of the delimiter, 64 bits of it are read. */
  lemma ScanNumber(s: string, del: char, base: nat, x: nat, t: string)
    requires 1 < base && Has(s, x, t + [del]) && DigitString(t, base) && DigitValue(del, base) < 0
    ensures Scan(s, del, base, x, 0) == (ValueOf(t, base) % 0x1_0000_0000_0000_0000, x + |t|)
  {
    assert t[..0] == "" && ValueOf("", base) == 0;
    hide Scan, ValueOf, Has, DigitString;
    ScanFrom(s, del, base, x, t, 0);
  }

  // ---- Lines ----

  function Perms(v: Vma): string {
    [if v.prot.r then 'r' else '-', if v.prot.w then 'w' else '-',
     if v.prot.x then 'x' else '-', if v.priv then 'p' else 's']
  }

  function Blanks(n: nat): string { if n == 0 then "" else " " + Blanks(n - 1) }

  // A line up to its name, from the inode backwards.

  function InodePart(v: Vma, gap: nat): string { DigitsOf(v.file.inode) + (" " + Blanks(gap)) }

  function MinorPart(v: Vma, gap: nat): string { PadHex(v.file.devMinor, 2) + (" " + InodePart(v, gap)) }

  function MajorPart(v: Vma, gap: nat): string { PadHex(v.file.devMajor, 2) + (":" + MinorPart(v, gap)) }

  function OffsetPart(v: Vma, gap: nat): string { PadHex(v.file.offset, 8) + (" " + MajorPart(v, gap)) }

  function PermsPart(v: Vma, gap: nat): string { Perms(v) + (" " + OffsetPart(v, gap)) }

  function EndPart(v: Vma, gap: nat): string { PadHex(v.end * PSIZE, 8) + (" " + PermsPart(v, gap)) }

  function Head(v: Vma, gap: nat): string { PadHex(v.start * PSIZE, 8) + ("-" + EndPart(v, gap)) }

  /** What the kernel can print: words for numbers, and names on one line that do not begin with a blank. */
  predicate Printable(v: Vma) {
    && v.start * PSIZE < 0x1_0000_0000_0000_0000 && v.end * PSIZE < 0x1_0000_0000_0000_0000
    && v.file.offset < 0x1_0000_0000_0000_0000
    && v.file.devMajor < 0x1_0000_0000_0000_0000 && v.file.devMinor < 0x1_0000_0000_0000_0000
    && v.file.inode < 0x1_0000_0000_0000_0000
    && (forall i | 0 <= i < |v.name| :: v.name[i] != '\n' && v.name[i] != '\0')
    && (v.name != "" ==> v.name[0] != ' ')
  }

  /** The record has 32 bits for offset and inode, and 16 for each device number. */
  function Narrow(f: FileId): FileId {
    FileId(f.offset % 0x1_0000_0000, f.devMajor % 0x1_0000, f.devMinor % 0x1_0000, f.inode % 0x1_0000_0000)
  }

  /** A number at position `x`, with the delimiter and the rest behind it. */
  lemma Piece(s: string, del: char, base: nat, x: nat, t: string, rest: string)
    requires 1 < base && Has(s, x, t + ([del] + rest)) && DigitString(t, base) && DigitValue(del, base) < 0
    requires ValueOf(t, base) < TWO_TO_64
    ensures Scan(s, del, base, x, 0) == (ValueOf(t, base), x + |t|)
    ensures x + |t| < |s| && s[x + |t|] == del && Has(s, x + |t| + 1, rest)
  {
    hide Scan, ValueOf, DigitValue, DigitString, Has;
    HasConcat(s, x, t, [del] + rest);
    HasConcat(s, x + |t|, [del], rest);
    CharAt(s, x + |t|, [del], 0);
    HasBounds(s, x + |t|, [del]);
    assert t + ([del] + rest) == (t + [del]) + rest;
    HasConcat(s, x, t + [del], rest);
    ScanNumber(s, del, base, x, t);
  }

  lemma HasBounds(s: string, x: nat, t: string)
    requires Has(s, x, t)
    ensures x + |t| <= |s|
  {
  }

  lemma HexPiece(s: string, del: char, x: nat, n: nat, width: nat, rest: string)
    requires Has(s, x, PadHex(n, width) + ([del] + rest)) && n < TWO_TO_64
    requires del == ' ' || del == '-' || del == ':'
    ensures Scan(s, del, 16, x, 0) == (n, x + |PadHex(n, width)|)
    ensures x + |PadHex(n, width)| < |s| && s[x + |PadHex(n, width)|] == del
    ensures Has(s, x + |PadHex(n, width)| + 1, rest)
  {
    hide PadHex, Has, Scan, ValueOf, DigitString;
    PadHexRoundTrip(n, width);
    Piece(s, del, 16, x, PadHex(n, width), rest);
  }

  lemma {:induction false} BlanksAre(n: nat)
    ensures |Blanks(n)| == n && forall i | 0 <= i < n :: Blanks(n)[i] == ' '
  {
    if n > 0 { BlanksAre(n - 1); }
  }

  lemma BlanksAt(s: string, x: nat, n: nat)
    requires Has(s, x, Blanks(n))
    ensures x + n <= |s| && forall k | x <= k < x + n :: s[k] == ' '
  {
    BlanksAre(n);
    forall k: nat | x <= k < x + n
      ensures s[k] == ' '
    {
      CharAt(s, x, Blanks(n), k - x);
    }
  }

  /** The fields of the line at `x0`, up to the position of its name. */
  method ReadFields(buffer: array<char>, x0: nat, ghost v: Vma, ghost gap: nat) returns (m: Vma, x: nat)
    requires Printable(v) && Has(buffer[..], x0, Head(v, gap))
    requires x0 + |Head(v, gap)| < buffer.Length && buffer[x0 + |Head(v, gap)|] != ' '
    ensures m == v.(name := "", file := Narrow(v.file)) && x == x0 + |Head(v, gap)|
  {
    hide PadHex, Has, Scan, InodePart, MinorPart, MajorPart, OffsetPart, PermsPart, EndPart, Perms, DigitValue;
    var low, high, offset, devMajor, devMinor, inode;
    ghost var s := buffer[..];
    x := x0;
    HexPiece(s, '-', x, v.start * PSIZE, 8, EndPart(v, gap));
    low, x := ParseUntil(buffer, '-', 16, x);
    if buffer[x] == '-' { x := x + 1; }
    EndPartIs(v, gap);
    HexPiece(s, ' ', x, v.end * PSIZE, 8, PermsPart(v, gap));
    high, x := ParseUntil(buffer, ' ', 16, x);
    x := x + 1;
    PermsAt(s, x, v, gap);
    var prot := Prot(buffer[x] == 'r', buffer[x + 1] == 'w', buffer[x + 2] == 'x');
    var priv := buffer[x + 3] == 'p';
    x := x + 5;
    OffsetPartIs(v, gap);
    HexPiece(s, ' ', x, v.file.offset, 8, MajorPart(v, gap));
    offset, x := ParseUntil(buffer, ' ', 16, x);
    x := x + 1;
    HexPiece(s, ':', x, v.file.devMajor, 2, MinorPart(v, gap));
    devMajor, x := ParseUntil(buffer, ':', 16, x);
    x := x + 1;
    HexPiece(s, ' ', x, v.file.devMinor, 2, InodePart(v, gap));
    devMinor, x := ParseUntil(buffer, ' ', 16, x);
    x := x + 1;
    HeadLength(v, gap);
    inode, x := ReadInode(buffer, x, v, gap);
    m := Vma(low / PSIZE, high / PSIZE, prot, priv, Narrow(FileId(offset, devMajor, devMinor, inode)), "");
  }

  lemma EndPartIs(v: Vma, gap: nat)
    ensures EndPart(v, gap) == PadHex(v.end * PSIZE, 8) + ([' '] + PermsPart(v, gap))
  {
  }

  lemma OffsetPartIs(v: Vma, gap: nat)
    ensures OffsetPart(v, gap) == PadHex(v.file.offset, 8) + ([' '] + MajorPart(v, gap))
    ensures MajorPart(v, gap) == PadHex(v.file.devMajor, 2) + ([':'] + MinorPart(v, gap))
    ensures MinorPart(v, gap) == PadHex(v.file.devMinor, 2) + ([' '] + InodePart(v, gap))
  {
  }

  lemma PermsAt(s: string, x: nat, v: Vma, gap: nat)
    requires Has(s, x, PermsPart(v, gap))
    ensures x + 4 < |s| && Has(s, x + 5, OffsetPart(v, gap))
    ensures s[x] == 'r' <==> v.prot.r
    ensures s[x + 1] == 'w' <==> v.prot.w
    ensures s[x + 2] == 'x' <==> v.prot.x
    ensures s[x + 3] == 'p' <==> v.priv
  {
    hide OffsetPart;
    HasConcat(s, x, Perms(v), " " + OffsetPart(v, gap));
    HasConcat(s, x + 4, " ", OffsetPart(v, gap));
    CharAt(s, x, Perms(v), 0);
    CharAt(s, x, Perms(v), 1);
    CharAt(s, x, Perms(v), 2);
    CharAt(s, x, Perms(v), 3);
  }

  method ReadInode(buffer: array<char>, x0: nat, ghost v: Vma, ghost gap: nat) returns (inode: nat, x: nat)
    requires v.file.inode < TWO_TO_64 && Has(buffer[..], x0, InodePart(v, gap))
    requires x0 + |InodePart(v, gap)| < buffer.Length && buffer[x0 + |InodePart(v, gap)|] != ' '
    ensures inode == v.file.inode && x == x0 + |InodePart(v, gap)|
  {
    hide Scan, ValueOf, DigitString, Has;
    ghost var s, t := buffer[..], DigitsOf(v.file.inode);
    DecRoundTrip(v.file.inode);
    Piece(s, ' ', 10, x0, t, Blanks(gap));
    inode, x := ParseUntil(buffer, ' ', 10, x0);
    BlanksAre(gap);
    BlanksAt(s, x0 + |t| + 1, gap);
    ghost var end := x0 + |InodePart(v, gap)|;
    while buffer[x] == ' ' && x + 1 < buffer.Length
      invariant x0 + |t| <= x <= end == x0 + |t| + 1 + gap
      decreases buffer.Length - x
    {
      x := x + 1;
    }
  }

  lemma HeadLength(v: Vma, gap: nat)
    ensures |Head(v, gap)| == |PadHex(v.start * PSIZE, 8)| + |PadHex(v.end * PSIZE, 8)| + |PadHex(v.file.offset, 8)|
      + |PadHex(v.file.devMajor, 2)| + |PadHex(v.file.devMinor, 2)| + |InodePart(v, gap)| + 10
  {
  }

  /** The digits of either base, with their values. */
  lemma DigitsByText(d: nat)
    ensures d < 16 ==> HexDigit(d) == "0123456789abcdef"[d] && DigitValue("0123456789abcdef"[d], 16) == d
    ensures d < 10 ==> Digit(d) == "0123456789"[d] && DigitValue("0123456789"[d], 10) == d
  {
  }

  /** How a number is read from its digits, and how many digits it is printed with at least. */
  lemma PlaceValue(s: string, d: nat, n: nat, width: nat)
    requires d < 16
    ensures ValueOf(s + [HexDigit(d)], 16) == 16 * ValueOf(s, 16) + d
    ensures d < 10 ==> ValueOf(s + [Digit(d)], 10) == 10 * ValueOf(s, 10) + d
    ensures width <= |PadHex(n, width)| && (0 < n && width < |PadHex(n, width)| ==> PadHex(n, width)[0] != '0')
  {
    assert (s + [HexDigit(d)])[..|s|] == s;
    ZerosAreDigits(width - |Hex(n)|);
    if width < |PadHex(n, width)| { NoLeadingZero(n); }
  }

  lemma {:induction false} NoLeadingZero(n: nat)
    ensures Hex(n) != "" && (Hex(n)[0] == '0' ==> n == 0 && |Hex(n)| == 1)
  {
    if n >= 16 { NoLeadingZero(n / 16); }
  }

  /** A line as the kernel prints it. Addresses are those of bytes. */
  lemma LineFormat(v: Vma, gap: nat)
    ensures Text(Line(v, gap)) ==
      PadHex(v.start * 4096, 8) + ("-" + (PadHex(v.end * 4096, 8) + (" " +
        ((if v.prot.r then "r" else "-") + (if v.prot.w then "w" else "-") + (if v.prot.x then "x" else "-") +
          (if v.priv then "p" else "s") + (" " +
        (PadHex(v.file.offset, 8) + (" " + (PadHex(v.file.devMajor, 2) + (":" + (PadHex(v.file.devMinor, 2) + (" " +
        (DigitsOf(v.file.inode) + (" " + Blanks(gap)))))))))))))) + (v.name + "\n")
    ensures |Blanks(gap)| == gap && forall i | 0 <= i < gap :: Blanks(gap)[i] == ' '
  {
    BlanksAre(gap);
    var a, b := if v.prot.r then "r" else "-", if v.prot.w then "w" else "-";
    var c, d := if v.prot.x then "x" else "-", if v.priv then "p" else "s";
    assert a + b + c + d == Perms(v);
    hide PadHex, Blanks;
  }

  // ---- Texts of several lines ----

  /** A mapping, and how many blanks the kernel puts in front of its name. */
  datatype Line = Line(vma: Vma, gap: nat)

  function Text(l: Line): string { Head(l.vma, l.gap) + (l.vma.name + "\n") }

  function ChunkText(ls: seq<Line>): string {
    if ls == [] then "" else ChunkText(ls[..|ls| - 1]) + Text(ls[|ls| - 1])
  }

  /** Where line `k` starts. */
  function LineStart(ls: seq<Line>, k: nat): nat
    requires k <= |ls|
  {
    |ChunkText(ls[..k])|
  }

  /** Ordinary characters: neither the end of a line nor the end of a C string. */
  predicate Ordinary(s: string) { forall i | 0 <= i < |s| :: s[i] != '\n' && s[i] != '\0' }

  lemma OrdinaryConcat(a: string, b: string)
    requires Ordinary(a) && Ordinary(b)
    ensures Ordinary(a + b)
  {
  }

  lemma NumbersAreOrdinary(s: string, base: nat)
    requires DigitString(s, base)
    ensures Ordinary(s)
  {
  }

  lemma HeadIsOrdinary(v: Vma, gap: nat)
    ensures Ordinary(Head(v, gap))
  {
    hide DigitString, PadHex, Blanks;
    PadHexRoundTrip(v.start * PSIZE, 8);
    PadHexRoundTrip(v.end * PSIZE, 8);
    PadHexRoundTrip(v.file.offset, 8);
    PadHexRoundTrip(v.file.devMajor, 2);
    PadHexRoundTrip(v.file.devMinor, 2);
    DecRoundTrip(v.file.inode);
    NumbersAreOrdinary(PadHex(v.start * PSIZE, 8), 16);
    NumbersAreOrdinary(PadHex(v.end * PSIZE, 8), 16);
    NumbersAreOrdinary(PadHex(v.file.offset, 8), 16);
    NumbersAreOrdinary(PadHex(v.file.devMajor, 2), 16);
    NumbersAreOrdinary(PadHex(v.file.devMinor, 2), 16);
    NumbersAreOrdinary(DigitsOf(v.file.inode), 10);
    BlanksAre(gap);
    OrdinaryConcat(" ", Blanks(gap));
    OrdinaryConcat(DigitsOf(v.file.inode), " " + Blanks(gap));
    hide InodePart;
    OrdinaryConcat(" ", InodePart(v, gap));
    OrdinaryConcat(PadHex(v.file.devMinor, 2), " " + InodePart(v, gap));
    OrdinaryConcat(":", MinorPart(v, gap));
    OrdinaryConcat(PadHex(v.file.devMajor, 2), ":" + MinorPart(v, gap));
    OrdinaryConcat(" ", MajorPart(v, gap));
    OrdinaryConcat(PadHex(v.file.offset, 8), " " + MajorPart(v, gap));
    OrdinaryConcat(" ", OffsetPart(v, gap));
    OrdinaryConcat(Perms(v), " " + OffsetPart(v, gap));
    OrdinaryConcat(" ", PermsPart(v, gap));
    OrdinaryConcat(PadHex(v.end * PSIZE, 8), " " + PermsPart(v, gap));
    OrdinaryConcat("-", EndPart(v, gap));
    OrdinaryConcat(PadHex(v.start * PSIZE, 8), "-" + EndPart(v, gap));
  }

  lemma {:induction false} LineAt(s: string, ls: seq<Line>, n: nat, k: nat)
    requires k < n <= |ls| && Has(s, 0, ChunkText(ls[..n]))
    ensures Has(s, LineStart(ls, k), Text(ls[k])) && LineStart(ls, k + 1) == LineStart(ls, k) + |Text(ls[k])|
    ensures LineStart(ls, k + 1) <= LineStart(ls, n)
    decreases n
  {
    hide Text, Has;
    assert ls[..n][..n - 1] == ls[..n - 1];
    assert ls[..k + 1][..k] == ls[..k];
    HasConcat(s, 0, ChunkText(ls[..n - 1]), Text(ls[n - 1]));
    if k < n - 1 { LineAt(s, ls, n - 1, k); }
  }

  /** A line at `o`: its head, its name, and the only line end at its end `e`. */
  ghost predicate ShapeAt(s: string, o: nat, e: nat, v: Vma, gap: nat) {
    var x := o + |Head(v, gap)|;
    && o < e < |s| && s[e] == '\n' && x + |v.name| == e
    && Has(s, o, Head(v, gap)) && Has(s, x, v.name)
    && (forall p | o <= p < e :: s[p] != '\n' && s[p] != '\0')
    && s[x] != ' '
  }

  /** Line `k` of a text. */
  ghost predicate LineShape(s: string, ls: seq<Line>, k: nat)
    requires k < |ls|
  {
    0 < LineStart(ls, k + 1) && ShapeAt(s, LineStart(ls, k), LineStart(ls, k + 1) - 1, ls[k].vma, ls[k].gap)
  }

  lemma HeadIsLong(v: Vma, gap: nat)
    ensures |Head(v, gap)| > 0
  {
  }

  lemma TextShape(s: string, o: nat, v: Vma, gap: nat)
    requires Has(s, o, Head(v, gap) + (v.name + "\n")) && Printable(v)
    ensures ShapeAt(s, o, o + |Head(v, gap)| + |v.name|, v, gap)
  {
    HeadIsOrdinary(v, gap);
    HeadIsLong(v, gap);
    hide Head, Has;
    HasConcat(s, o, Head(v, gap), v.name + "\n");
    var x := o + |Head(v, gap)|;
    HasConcat(s, x, v.name, "\n");
    CharAt(s, x + |v.name|, "\n", 0);
    HasBounds(s, x + |v.name|, "\n");
    forall p: nat | o <= p < x + |v.name|
      ensures s[p] != '\n' && s[p] != '\0'
    {
      if p < x { CharAt(s, o, Head(v, gap), p - o); } else { CharAt(s, x, v.name, p - x); }
    }
    if v.name != "" { CharAt(s, x, v.name, 0); }
  }

  /** The text begins with these lines, all of which the kernel can print. */
  ghost predicate Prints(s: string, ls: seq<Line>) {
    Has(s, 0, ChunkText(ls)) && forall k | 0 <= k < |ls| :: Printable(ls[k].vma)
  }

  lemma LineHasShape(s: string, ls: seq<Line>, k: nat)
    requires k < |ls| && Prints(s, ls)
    ensures LineShape(s, ls, k) && Printable(ls[k].vma)
  {
    hide Head, Has, ShapeAt, LineStart, ChunkText, Printable;
    assert ls[..|ls|] == ls;
    LineAt(s, ls, |ls|, k);
    TextShape(s, LineStart(ls, k), ls[k].vma, ls[k].gap);
  }

  // ---- The buffer while it is being read ----

  /** The line ends from `from` to `upto` have been replaced by string ends. */
  function Zeroed(s: string, from: nat, upto: nat): (r: string)
    ensures |r| == |s|
  {
    seq(|s|, p requires 0 <= p < |s| => if from <= p < upto && s[p] == '\n' then '\0' else s[p])
  }

  /** The first line that belongs to the kernel itself, or the number of lines. */
  function FirstHidden(ls: seq<Line>): (h: nat)
    ensures h <= |ls|
  {
    if ls == [] || Hidden(ls[0].vma) then 0 else 1 + FirstHidden(ls[1..])
  }

  lemma {:induction false} FirstHiddenIs(ls: seq<Line>, k: nat)
    requires k < |ls|
    ensures k < FirstHidden(ls) ==> !Hidden(ls[k].vma)
    ensures k == FirstHidden(ls) ==> Hidden(ls[k].vma)
    decreases |ls|
  {
    hide Hidden;
    if !Hidden(ls[0].vma) && k > 0 { FirstHiddenIs(ls[1..], k - 1); }
  }

  /** A mapping as the record holds it: names and numbers are cut to the room there is. */
  function Cut(v: Vma): Vma {
    v.(file := Narrow(v.file), name := if |v.name| <= NAME_SIZE - 1 then v.name else v.name[..NAME_SIZE - 1])
  }

  /** What the parser keeps of a text: the lines before the first hidden one. */
  function KeptLines(ls: seq<Line>, n: nat): seq<Vma>
    requires n <= |ls|
  {
    if n == 0 then [] else KeptLines(ls, n - 1) + [Cut(ls[n - 1].vma)]
  }

  lemma {:induction false} KeptAt(ls: seq<Line>, n: nat, k: nat)
    requires n <= |ls|
    ensures |KeptLines(ls, n)| == n && (k < n ==> KeptLines(ls, n)[k] == Cut(ls[k].vma))
  {
    hide Cut;
    if n > 0 { KeptAt(ls, n - 1, k); }
  }

  /**
   The kernel's own mappings are known by their names. A line is kept if neither it nor one before it
   is such a mapping: with 127 characters of its name, and as many bits of its numbers as there is room for.
   */
  lemma {:induction false} KeptByName(ls: seq<Line>, k: nat)
    requires k < |ls|
    ensures k < |KeptLines(ls, FirstHidden(ls))| <==> forall j | 0 <= j <= k ::
              !("[vvar]" <= ls[j].vma.name || "[vdso]" <= ls[j].vma.name || "[vsyscall]" <= ls[j].vma.name)
    ensures k < |KeptLines(ls, FirstHidden(ls))| ==>
      var v, f := ls[k].vma, ls[k].vma.file;
      KeptLines(ls, FirstHidden(ls))[k] ==
        Vma(v.start, v.end, v.prot, v.priv,
            FileId(f.offset % 4294967296, f.devMajor % 65536, f.devMinor % 65536, f.inode % 4294967296),
            if |v.name| <= 127 then v.name else v.name[..127])
  {
    KeptAt(ls, FirstHidden(ls), k);
    forall j | 0 <= j <= k
      ensures j < FirstHidden(ls) ==> !Hidden(ls[j].vma)
      ensures j == FirstHidden(ls) ==> Hidden(ls[j].vma)
    {
      FirstHiddenIs(ls, j);
    }
    if FirstHidden(ls) <= k { assert Hidden(ls[FirstHidden(ls)].vma); }
  }

  lemma HasZeroed(s: string, from: nat, upto: nat, x: nat, t: string)
    requires Has(s, x, t) && Ordinary(t)
    ensures Has(Zeroed(s, from, upto), x, t)
  {
    var r := Zeroed(s, from, upto);
    forall k: nat | k < |t|
      ensures r[x + k] == t[k]
    {
      CharAt(s, x, t, k);
    }
    assert r[x..x + |t|] == t;
  }

  lemma CutKeepsHidden(v: Vma)
    ensures Hidden(Cut(v)) == Hidden(v)
  {
    var t := v.name;
    if |t| > NAME_SIZE - 1 {
      var c := t[..NAME_SIZE - 1];
      assert c[..6] == t[..6] && c[..10] == t[..10];
    }
  }

  lemma LongerIsHidden(a: Vma, b: Vma)
    requires Hidden(a) && a.name <= b.name
    ensures Hidden(b)
  {
  }

  /** What stands in the buffer when the end of a line is met at `i`: the line of `v` begins at `o`. */
  ghost predicate Facing(b: string, i: nat, o: nat, v: Vma, gap: nat) {
    var x := o + |Head(v, gap)|;
    && Printable(v) && o < i < |b| && x + |v.name| <= i && b[i] == '\n'
    && Has(b, o, Head(v, gap)) && Has(b, x, v.name) && b[x] != ' '
    && (forall p | o <= p < i :: b[p] != '\n') && (o > 0 ==> b[o - 1] == '\n')
    && (x + |v.name| == i || Hidden(v))
  }

  /** Goes back from the end of a line to its beginning, reads it, and cuts off its name in the buffer. */
  method ReadLine(buffer: array<char>, i: nat, ghost o: nat, ghost v: Vma, ghost gap: nat) returns (m: Vma, keep: bool)
    requires Facing(buffer[..], i, o, v, gap)
    modifies buffer
    ensures keep <==> !Hidden(v)
    ensures keep ==> m == Cut(v) && buffer[..] == old(buffer[..])
    ensures !keep ==> buffer[..] == old(buffer[..])[i := '\0']
  {
    hide Head, Printable, Hidden, Cut, Narrow;
    ghost var b := buffer[..];
    var start := i - 1;
    while start > 0 && buffer[start] != '\n'
      invariant 0 <= start < i && (o > 0 ==> o - 1 <= start)
    {
      start := start - 1;
    }
    if buffer[start] == '\n' { start := start + 1; }
    assert start == o;
    var x;
    m, x := ReadFields(buffer, start, v, gap);
    var y := x;
    while buffer[y] != '\n' && y + 1 < buffer.Length
      invariant x <= y <= i
      decreases buffer.Length - y
    {
      y := y + 1;
    }
    assert y == i;
    buffer[y] := '\0';
    var size := if y - x <= NAME_SIZE - 1 then y - x else NAME_SIZE - 1;
    m := m.(name := buffer[x..x + size]);
    assert buffer[x..x + size] == b[x..x + size];
    NameRead(b, i, o, v, gap, m);
    if Hidden(m) {
      return m, false;
    }
    buffer[y] := '\n';
    assert buffer[..] == b;
    keep := true;
  }

  lemma NameRead(b: string, i: nat, o: nat, v: Vma, gap: nat, m: Vma)
    requires Facing(b, i, o, v, gap)
    requires var x := o + |Head(v, gap)|;
      x <= i && m == v.(file := Narrow(v.file),
          name := b[x..x + if i - x <= NAME_SIZE - 1 then i - x else NAME_SIZE - 1])
    ensures Hidden(m) == Hidden(v) && (!Hidden(v) ==> m == Cut(v))
  {
    hide Head, Printable, Hidden;
    var x := o + |Head(v, gap)|;
    var whole := v.(name := b[x..i]);
    assert m == Cut(whole);
    CutKeepsHidden(whole);
    if x + |v.name| == i {
      assert b[x..i] == v.name;
    } else {
      assert v.name <= b[x..i];
      LongerIsHidden(v, whole);
    }
  }

  function Least(a: nat, b: nat): nat { if a <= b then a else b }

  lemma {:induction false} StartsMonotone(s: string, ls: seq<Line>, a: nat, b: nat)
    requires a <= b <= |ls| && Prints(s, ls)
    ensures LineStart(ls, a) <= LineStart(ls, b)
    decreases b
  {
    hide ChunkText, Has, LineStart;
    if a < b {
      assert ls[..|ls|] == ls;
      LineAt(s, ls, |ls|, b - 1);
      StartsMonotone(s, ls, a, b - 1);
    }
  }

  lemma ZeroedAt(s: string, from: nat, upto: nat, p: nat)
    requires p < |s|
    ensures Zeroed(s, from, upto)[p] == if from <= p < upto && s[p] == '\n' then '\0' else s[p]
  {
  }

  lemma FacingAt(s: string, from: nat, i: nat, o: nat, e: nat, v: Vma, gap: nat)
    requires ShapeAt(s, o, e, v, gap) && Printable(v) && e <= i < |s| && s[i] == '\n' && o <= from
    requires e == i || (Hidden(v) && from == o)
    requires o > 0 ==> s[o - 1] == '\n'
    ensures Facing(Zeroed(s, from, i), i, o, v, gap)
  {
    hide Head, Has, Printable, Hidden, Zeroed, Ordinary;
    var x := o + |Head(v, gap)|;
    HeadIsOrdinary(v, gap);
    NameIsOrdinary(v);
    HasZeroed(s, from, i, o, Head(v, gap));
    HasZeroed(s, from, i, x, v.name);
    var b := Zeroed(s, from, i);
    ZeroedAt(s, from, i, i);
    ZeroedAt(s, from, i, x);
    if o > 0 { ZeroedAt(s, from, i, o - 1); }
    NoLineEnd(s, from, i, o, e);
  }

  lemma NoLineEnd(s: string, from: nat, i: nat, o: nat, e: nat)
    requires o <= e <= i <= |s| && (e == i || from == o)
    requires forall p | o <= p < e :: s[p] != '\n'
    ensures forall p | o <= p < i :: Zeroed(s, from, i)[p] != '\n'
  {
  }

  /** At the end of line `k` the parser finds line `k`, or the first hidden line if that came before. */
  lemma FacesLine(s: string, ls: seq<Line>, k: nat)
    requires k < |ls| && Prints(s, ls)
    ensures var h := FirstHidden(ls);
      var j := Least(k, h);
      && 0 < LineStart(ls, k + 1)
      && Facing(Zeroed(s, LineStart(ls, h), LineStart(ls, k + 1) - 1), LineStart(ls, k + 1) - 1, LineStart(ls, j),
          ls[j].vma, ls[j].gap)
  {
    hide Prints, Has, Head, ChunkText, LineStart, Printable, Hidden, ShapeAt, Facing, Zeroed;
    var h := FirstHidden(ls);
    var j := Least(k, h);
    LineHasShape(s, ls, k);
    LineHasShape(s, ls, j);
    var from, i, o := LineStart(ls, h), LineStart(ls, k + 1) - 1, LineStart(ls, j);
    StartsMonotone(s, ls, j + 1, k + 1);
    StartsMonotone(s, ls, j, h);
    ShapeEnds(s, LineStart(ls, k), i, ls[k].vma, ls[k].gap);
    if j > 0 {
      LineHasShape(s, ls, j - 1);
      ShapeEnds(s, LineStart(ls, j - 1), o - 1, ls[j - 1].vma, ls[j - 1].gap);
    } else {
      FirstStart(ls);
    }
    FirstHiddenIs(ls, j);
    FacingAt(s, from, i, o, LineStart(ls, j + 1) - 1, ls[j].vma, ls[j].gap);
  }

  lemma ShapeEnds(s: string, o: nat, e: nat, v: Vma, gap: nat)
    requires ShapeAt(s, o, e, v, gap)
    ensures o < e < |s| && s[e] == '\n'
  {
  }

  lemma NameIsOrdinary(v: Vma)
    requires Printable(v)
    ensures Ordinary(v.name)
  {
  }

  lemma FirstStart(ls: seq<Line>)
    ensures LineStart(ls, 0) == 0
  {
    assert ls[..0] == [];
  }

  /** The parser at position `i`, in line `k`. */
  ghost predicate Reading(s: string, ls: seq<Line>, b: string, i: nat, k: nat, vs: seq<Vma>) {
    var h := FirstHidden(ls);
    && k <= |ls| && LineStart(ls, k) <= i
    && (if k < |ls| then i < LineStart(ls, k + 1) else i == LineStart(ls, k))
    && b == Zeroed(s, LineStart(ls, h), i) && vs == KeptLines(ls, Least(k, h))
  }

  lemma ReadingSkips(s: string, ls: seq<Line>, b: string, i: nat, k: nat, vs: seq<Vma>)
    requires Prints(s, ls)
    requires Reading(s, ls, b, i, k, vs) && k < |ls| && i < |s| == |b|
    ensures b[i] == '\n' <==> i == LineStart(ls, k + 1) - 1
    ensures b[i] == '\n' ==> i > 0
    ensures b[i] != '\n' ==> Reading(s, ls, b, i + 1, k, vs)
  {
    hide Prints, Has, Head, ChunkText, LineStart, Printable, KeptLines, Hidden, FirstHidden;
    LineHasShape(s, ls, k);
    if b[i] != '\n' { assert Zeroed(s, LineStart(ls, FirstHidden(ls)), i + 1) == b; }
  }

  lemma ZeroedMore(s: string, from: nat, i: nat)
    requires i < |s| && s[i] == '\n'
    ensures from <= i ==> Zeroed(s, from, i)[i := '\0'] == Zeroed(s, from, i + 1)
    ensures i < from ==> Zeroed(s, from, i) == Zeroed(s, from, i + 1)
  {
  }

  lemma ReadingLine(s: string, ls: seq<Line>, b: string, k: nat, vs: seq<Vma>, b': string)
    requires Prints(s, ls)
    requires k < |ls| && 0 < LineStart(ls, k + 1) && Reading(s, ls, b, LineStart(ls, k + 1) - 1, k, vs)
    requires LineStart(ls, k + 1) - 1 < |b|
    requires b' == if k < FirstHidden(ls) then b else b[LineStart(ls, k + 1) - 1 := '\0']
    ensures Reading(s, ls, b', LineStart(ls, k + 1), k + 1, if k < FirstHidden(ls) then vs + [Cut(ls[k].vma)] else vs)
  {
    hide Prints, Has, Head, ChunkText, LineStart, Printable, Zeroed, Cut, Hidden, KeptLines, FirstHidden;
    var h, i := FirstHidden(ls), LineStart(ls, k + 1) - 1;
    LineEnd(s, ls, k);
    if k < h {
      StartsMonotone(s, ls, k + 1, h);
      KeptNext(ls, k);
    } else {
      StartsMonotone(s, ls, h, k);
    }
    ZeroedMore(s, LineStart(ls, h), i);
    if k + 1 < |ls| { LineEnd(s, ls, k + 1); }
  }

  lemma KeptNext(ls: seq<Line>, k: nat)
    requires k < |ls|
    ensures KeptLines(ls, k + 1) == KeptLines(ls, k) + [Cut(ls[k].vma)]
  {
  }

  lemma LineEnd(s: string, ls: seq<Line>, k: nat)
    requires k < |ls| && Prints(s, ls)
    ensures LineStart(ls, k) + 1 < LineStart(ls, k + 1) <= |s| && s[LineStart(ls, k + 1) - 1] == '\n'
  {
    hide Prints, Has, Head, ChunkText, LineStart, Printable;
    LineHasShape(s, ls, k);
  }

  lemma ReadingStart(s: string, ls: seq<Line>)
    requires Prints(s, ls)
    ensures Reading(s, ls, s, 0, 0, []) && LineStart(ls, |ls|) == |ChunkText(ls)|
  {
    hide Prints, Has, Head, ChunkText, Printable;
    FirstStart(ls);
    assert ls[..|ls|] == ls;
    assert Zeroed(s, LineStart(ls, FirstHidden(ls)), 0) == s;
    if ls != [] { LineHasShape(s, ls, 0); }
  }

  /**
   Reads one piece of the file, which consists of whole lines. A hidden line is not put back together
   in the buffer, so every later line of the piece is taken for it, and dropped.
   */
  method ReadChunk(buffer: array<char>, length: nat, ghost ls: seq<Line>) returns (vs: seq<Vma>)
    requires Prints(buffer[..], ls) && length == |ChunkText(ls)|
    modifies buffer
    ensures vs == KeptLines(ls, FirstHidden(ls))
  {
    hide Reading, Prints, Has, ChunkText, Printable, LineStart, Facing, KeptLines, Zeroed;
    ghost var s := buffer[..];
    ghost var k: nat := 0;
    vs := [];
    ReadingStart(s, ls);
    PrintsBounds(s, ls);
    var i := 0;
    while i < length
      invariant i <= length && |buffer[..]| == |s| && k <= |ls| && Reading(s, ls, buffer[..], i, k, vs)
    {
      LineLeft(s, ls, buffer[..], i, k, vs);
      ReadingSkips(s, ls, buffer[..], i, k, vs);
      if buffer[i] == '\n' && i > 0 {
        ghost var j := Least(k, FirstHidden(ls));
        ghost var b := buffer[..];
        FacesLine(s, ls, k);
        BufferIs(s, ls, b, i, k, vs);
        var m, keep := ReadLine(buffer, i, LineStart(ls, j), ls[j].vma, ls[j].gap);
        FirstHiddenIs(ls, j);
        ReadingLine(s, ls, b, k, vs, buffer[..]);
        if keep { vs := vs + [m]; }
        k := k + 1;
      }
      i := i + 1;
    }
    AllRead(s, ls, buffer[..], i, k, vs);
  }

  lemma PrintsBounds(s: string, ls: seq<Line>)
    requires Prints(s, ls)
    ensures |ChunkText(ls)| <= |s|
  {
  }

  lemma LineLeft(s: string, ls: seq<Line>, b: string, i: nat, k: nat, vs: seq<Vma>)
    requires Reading(s, ls, b, i, k, vs) && i < |ChunkText(ls)|
    ensures k < |ls|
  {
    assert ls[..|ls|] == ls;
  }

  lemma BufferIs(s: string, ls: seq<Line>, b: string, i: nat, k: nat, vs: seq<Vma>)
    requires Reading(s, ls, b, i, k, vs)
    ensures b == Zeroed(s, LineStart(ls, FirstHidden(ls)), i)
  {
  }

  lemma AllRead(s: string, ls: seq<Line>, b: string, i: nat, k: nat, vs: seq<Vma>)
    requires Reading(s, ls, b, i, k, vs) && i == |ChunkText(ls)|
    requires Prints(s, ls)
    ensures vs == KeptLines(ls, FirstHidden(ls))
  {
    hide Prints, Has, Printable, ChunkText;
    assert ls[..|ls|] == ls;
    if k < |ls| { StartsMonotone(s, ls, k + 1, |ls|); }
  }

  // ---- The whole file ----

  function KeptAll(pieces: seq<seq<Line>>): seq<Vma> {
    if pieces == [] then []
    else
      var last := pieces[|pieces| - 1];
      KeptAll(pieces[..|pieces| - 1]) + KeptLines(last, FirstHidden(last))
  }

  /** Reads the file piece by piece, as the kernel delivers it: whole lines, at most a buffer at a time. */
  method ReadMapsText(texts: seq<string>, ghost pieces: seq<seq<Line>>) returns (vs: seq<Vma>)
    requires |texts| == |pieces|
    requires forall k | 0 <= k < |texts| :: texts[k] == ChunkText(pieces[k]) && |texts[k]| <= 8192
    requires forall k, j | 0 <= k < |pieces| && 0 <= j < |pieces[k]| :: Printable(pieces[k][j].vma)
    ensures vs == KeptAll(pieces)
  {
    hide Printable, ChunkText, KeptLines, FirstHidden;
    var buffer := new char[BUFSIZ];
    vs := [];
    var k := 0;
    while k < |texts|
      invariant k <= |texts| && vs == KeptAll(pieces[..k])
    {
      forall p | 0 <= p < |texts[k]| {
        buffer[p] := texts[k][p];
      }
      assert buffer[..][0..0 + |texts[k]|] == texts[k];
      var more := ReadChunk(buffer, |texts[k]|, pieces[k]);
      assert pieces[..k + 1][..k] == pieces[..k];
      vs := vs + more;
      k := k + 1;
    }
    assert pieces[..k] == pieces;
  }

  /** The lines that ought to be kept: all that are not the kernel's own. */
  function Wanted(ls: seq<Line>, n: nat): seq<Vma>
    requires n <= |ls|
  {
    if n == 0 then []
    else Wanted(ls, n - 1) + if Hidden(ls[n - 1].vma) then [] else [Cut(ls[n - 1].vma)]
  }

  function WantedAll(pieces: seq<seq<Line>>): seq<Vma> {
    if pieces == [] then []
    else
      var last := pieces[|pieces| - 1];
      WantedAll(pieces[..|pieces| - 1]) + Wanted(last, |last|)
  }

  /** No line worth keeping follows a hidden one. */
  predicate HiddenLast(ls: seq<Line>) {
    forall k | FirstHidden(ls) <= k < |ls| :: Hidden(ls[k].vma)
  }

  lemma {:induction false} KeptBeforeHidden(ls: seq<Line>, n: nat)
    requires n <= FirstHidden(ls)
    ensures Wanted(ls, n) == KeptLines(ls, n)
  {
    hide Hidden, Cut, FirstHidden;
    if n > 0 {
      KeptBeforeHidden(ls, n - 1);
      FirstHiddenIs(ls, n - 1);
    }
  }

  lemma {:induction false} WantedGrows(ls: seq<Line>, a: nat, b: nat)
    requires a <= b <= |ls|
    ensures Wanted(ls, a) <= Wanted(ls, b)
    ensures |Wanted(ls, a)| == |Wanted(ls, b)| <==> forall k | a <= k < b :: Hidden(ls[k].vma)
    decreases b
  {
    hide Hidden, Cut;
    if a < b { WantedGrows(ls, a, b - 1); }
  }

  lemma PieceKept(ls: seq<Line>)
    ensures KeptLines(ls, FirstHidden(ls)) <= Wanted(ls, |ls|)
    ensures |KeptLines(ls, FirstHidden(ls))| == |Wanted(ls, |ls|)| <==> HiddenLast(ls)
  {
    hide Hidden, Cut;
    KeptBeforeHidden(ls, FirstHidden(ls));
    WantedGrows(ls, FirstHidden(ls), |ls|);
  }

  lemma {:induction false} AllKept(pieces: seq<seq<Line>>)
    ensures |KeptAll(pieces)| <= |WantedAll(pieces)|
    ensures |KeptAll(pieces)| == |WantedAll(pieces)| <==> forall k | 0 <= k < |pieces| :: HiddenLast(pieces[k])
    ensures |KeptAll(pieces)| == |WantedAll(pieces)| ==> KeptAll(pieces) == WantedAll(pieces)
    decreases |pieces|
  {
    hide HiddenLast, KeptLines, Wanted, FirstHidden;
    if pieces != [] {
      var n := |pieces| - 1;
      AllKept(pieces[..n]);
      PieceKept(pieces[n]);
    }
  }

  /**
   When the parser inverts the printer: it returns every mapping that is not the kernel's own, in
   order, exactly if no such mapping is printed behind a hidden one in the same piece of the file.
   */
  lemma ParserInvertsPrinterExactlyWhen(pieces: seq<seq<Line>>)
    ensures KeptAll(pieces) == WantedAll(pieces) <==> forall k | 0 <= k < |pieces| :: HiddenLast(pieces[k])
  {
    hide HiddenLast, KeptAll, WantedAll;
    AllKept(pieces);
  }

  function VmasOf(ls: seq<Line>): (vs: seq<Vma>)
    ensures |vs| == |ls|
  {
    seq(|ls|, k requires 0 <= k < |ls| => Cut(ls[k].vma))
  }

  lemma NothingVisible(vs: seq<Vma>)
    ensures Visible(vs[..0]) == []
  {
  }

  /** What ought to be kept is the visible part of the layout, with names cut to their room. */
  lemma {:induction false} WantedIsVisible(ls: seq<Line>, n: nat)
    requires n <= |ls|
    ensures Wanted(ls, n) == Visible(VmasOf(ls)[..n])
  {
    hide Hidden, Cut, Visible;
    NothingVisible(VmasOf(ls));
    if n > 0 {
      WantedIsVisible(ls, n - 1);
      VisibleStep(VmasOf(ls), n - 1);
      CutKeepsHidden(ls[n - 1].vma);
    }
  }
}
