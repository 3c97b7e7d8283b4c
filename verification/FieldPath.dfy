/** The access paths of internal/test/unstructured.go, such as `spec.volumes[0].name`.
    A Go string is a sequence of bytes. */
module FieldPath {
  import opened Options

  type Byte = b: int | 0 <= b < 256
  type Bytes = seq<Byte>

  /** Go's `int` on a 64-bit platform. */
  type GoInt = n: int | -0x8000_0000_0000_0000 <= n < 0x8000_0000_0000_0000

  const DOT: Byte := 46
  const OPEN: Byte := 91
  const CLOSE: Byte := 93
  const NEWLINE: Byte := 10
  const PLUS: Byte := 43
  const MINUS: Byte := 45
  const ZERO: Byte := 48

  datatype Segment = FieldSegment(field: Bytes) | IndexSegment(index: GoInt)

  /** `string(ch)` for a byte: the UTF-8 encoding of the character with that number. */
  function Encode(ch: Byte): (r: Bytes)
    ensures r == [ch] <==> ch < 128
    ensures |r| == if ch < 128 then 1 else 2
  {
    if ch < 128 then [ch] else [0xC0 + ch / 64, 0x80 + ch % 64]
  }

  // Reading an index: fmt.Sscanf with "%d".

  predicate IsSpace(ch: Byte)
  {
    9 <= ch <= 13 || ch == 32 || ch == 0x85 || ch == 0xA0
  }

  predicate IsDigit(ch: Byte)
  {
    ZERO <= ch <= ZERO + 9
  }

  /** What is left after leading spaces; a newline among them is an error. */
  function SkipSpace(s: Bytes): Option<Bytes>
  {
    if s == [] then Some([])
    else if s[0] == NEWLINE then None
    else if IsSpace(s[0]) then SkipSpace(s[1..])
    else Some(s)
  }

  function Digits(s: Bytes): (d: Bytes)
    ensures d <= s && forall i :: 0 <= i < |d| ==> IsDigit(d[i])
  {
    if s == [] || !IsDigit(s[0]) then [] else [s[0]] + Digits(s[1..])
  }

  function Value(digits: Bytes): int
  {
    if digits == [] then 0 else Value(digits[..|digits| - 1]) * 10 + (digits[|digits| - 1] - ZERO)
  }

  /** The number at the start of the text, what follows it being ignored. The text is given by
      its characters, all of which come from single bytes. */
  function ScanInt(s: Bytes): Option<GoInt>
  {
    var rest := SkipSpace(s);
    if rest.None? || rest.value == [] then None
    else
      var signed := rest.value[0] == PLUS || rest.value[0] == MINUS;
      var digits := Digits(if signed then rest.value[1..] else rest.value);
      var n := if rest.value[0] == MINUS then -Value(digits) else Value(digits);
      if digits == [] || !(-0x8000_0000_0000_0000 <= n < 0x8000_0000_0000_0000) then None else Some(n)
  }

  // The parser.

  datatype Scanner = Scanner(segments: seq<Segment>, current: Bytes, inBracket: bool, indexStr: Bytes)

  const START := Scanner([], [], false, [])

  function Flush(s: Scanner): seq<Segment>
  {
    if s.current != [] then s.segments + [FieldSegment(s.current)] else s.segments
  }

  function Step(s: Scanner, ch: Byte): Scanner
  {
    if ch == DOT then
      if s.inBracket then s.(indexStr := s.indexStr + [ch]) else s.(segments := Flush(s), current := [])
    else if ch == OPEN then Scanner(Flush(s), [], true, [])
    else if ch == CLOSE then
      if s.inBracket then
        var index := match ScanInt(s.indexStr) case Some(n) => n case None => -1;
        s.(segments := s.segments + [IndexSegment(index)], inBracket := false, indexStr := [])
      else s
    else if s.inBracket then s.(indexStr := s.indexStr + [ch])
    else s.(current := s.current + Encode(ch))
  }

  function Scan(s: Scanner, path: Bytes): Scanner
    decreases path
  {
    if path == [] then s else Scan(Step(s, path[0]), path[1..])
  }

  function Parse(path: Bytes): seq<Segment>
  {
    Flush(Scan(START, path))
  }

  method ParsePath(path: Bytes) returns (segments: seq<Segment>)
    ensures segments == Parse(path)
  {
    segments := [];
    var current: Bytes, inBracket, indexStr: Bytes := [], false, [];
    var i := 0;
    while i < |path|
      invariant 0 <= i <= |path|
      invariant Scan(Scanner(segments, current, inBracket, indexStr), path[i..]) == Scan(START, path)
    {
      var ch := path[i];
      if ch == DOT {
        if inBracket {
          indexStr := indexStr + [ch];
        } else if current != [] {
          segments := segments + [FieldSegment(current)];
          current := [];
        }
      } else if ch == OPEN {
        if current != [] {
          segments := segments + [FieldSegment(current)];
          current := [];
        }
        inBracket, indexStr := true, [];
      } else if ch == CLOSE {
        if inBracket {
          var scanned := ScanInt(indexStr);
          var index: GoInt := if scanned.Some? then scanned.value else -1;
          segments := segments + [IndexSegment(index)];
          inBracket, indexStr := false, [];
        }
      } else if inBracket {
        indexStr := indexStr + [ch];
      } else {
        current := current + Encode(ch);
      }
      i := i + 1;
    }
    if current != [] {
      segments := segments + [FieldSegment(current)];
    }
  }

  // Parsing pieces of a path.

  lemma {:induction false} ScanConcat(s: Scanner, p: Bytes, q: Bytes)
    ensures Scan(s, p + q) == Scan(Scan(s, p), q)
    decreases p
  {
    if p == [] {
      assert p + q == q;
    } else {
      assert (p + q)[1..] == p[1..] + q;
      ScanConcat(Step(s, p[0]), p[1..], q);
    }
  }

  function After(before: seq<Segment>, s: Scanner): Scanner
  {
    s.(segments := before + s.segments)
  }

  lemma FlushAfter(before: seq<Segment>, s: Scanner)
    ensures Flush(After(before, s)) == before + Flush(s)
  {
  }

  lemma StepAfter(before: seq<Segment>, s: Scanner, ch: Byte)
    ensures Step(After(before, s), ch) == After(before, Step(s, ch))
  {
    FlushAfter(before, s);
  }

  lemma {:induction false} ScanAfter(before: seq<Segment>, s: Scanner, path: Bytes)
    ensures Scan(After(before, s), path) == After(before, Scan(s, path))
    decreases path
  {
    if path != [] {
      StepAfter(before, s, path[0]);
      ScanAfter(before, Step(s, path[0]), path[1..]);
    }
  }

  /** The path does not end inside a bracket. */
  predicate Closed(path: Bytes)
  {
    !Scan(START, path).inBracket
  }

  predicate Clean(field: Bytes)
  {
    DOT !in field && OPEN !in field && CLOSE !in field
  }

  /** What holds of the parser at every point: fields are not empty and hold no separator. */
  ghost predicate Sound(s: Scanner)
  {
    && Clean(s.current) && (!s.inBracket ==> s.indexStr == []) && (s.inBracket ==> s.current == [])
    && forall f :: FieldSegment(f) in s.segments ==> f != [] && Clean(f)
  }

  lemma StepIsSound(s: Scanner, ch: Byte)
    requires Sound(s)
    ensures Sound(Step(s, ch))
  {
    assert forall f :: FieldSegment(f) in Flush(s) ==> f != [] && Clean(f);
  }

  lemma {:induction false} ScanIsSound(s: Scanner, path: Bytes)
    requires Sound(s)
    ensures Sound(Scan(s, path))
    decreases path
  {
    if path != [] {
      StepIsSound(s, path[0]);
      ScanIsSound(Step(s, path[0]), path[1..]);
    }
  }

  /** Whatever the path, a parsed field is not empty and holds no separator. */
  lemma FieldsAreClean(path: Bytes, f: Bytes)
    requires FieldSegment(f) in Parse(path)
    ensures f != [] && Clean(f)
  {
    ScanIsSound(START, path);
  }

  /** A path continued by a field or an index parses to its segments and those that follow. */
  lemma ParseConcat(p: Bytes, q: Bytes)
    requires Closed(p) && q != [] && (q[0] == DOT || q[0] == OPEN)
    ensures Parse(p + q) == Parse(p) + Parse(q)
    ensures Closed(p + q) == Closed(q)
  {
    var s := Scan(START, p);
    ScanIsSound(START, p);
    ScanConcat(START, p, q);
    assert Step(s, q[0]) == After(Flush(s), Step(START, q[0]));
    ScanAfter(Flush(s), Step(START, q[0]), q[1..]);
    FlushAfter(Flush(s), Scan(START, q));
  }

  /** Dots in a row are one, a bracket that is closed without having been opened is nothing, and what
      follows a bracket that is not closed is lost with it. */
  lemma StrayCharacters(p: Bytes, q: Bytes, text: Bytes)
    requires Clean(text)
    ensures Parse(p + [OPEN] + text) == Parse(p)
    ensures Closed(p) ==> Parse(p + [CLOSE] + q) == Parse(p + q)
    ensures Closed(p) ==> Parse(p + [DOT, DOT] + q) == Parse(p + [DOT] + q)
  {
    var s := Scan(START, p);
    ScanIsSound(START, p);
    assert p + [OPEN] + text == p + ([OPEN] + text) && ([OPEN] + text)[1..] == text;
    ScanConcat(START, p, [OPEN] + text);
    ScanIndex(Step(s, OPEN), text);
    assert p + [CLOSE] + q == p + ([CLOSE] + q) && ([CLOSE] + q)[1..] == q;
    ScanConcat(START, p, [CLOSE] + q);
    ScanConcat(START, p, q);
    assert p + [DOT, DOT] + q == p + ([DOT, DOT] + q) && p + [DOT] + q == p + ([DOT] + q);
    assert ([DOT, DOT] + q)[1..] == [DOT] + q && ([DOT] + q)[1..] == q;
    ScanConcat(START, p, [DOT, DOT] + q);
    ScanConcat(START, p, [DOT] + q);
  }

  // Printing.

  function Decimal(n: nat): Bytes
  {
    if n < 10 then [ZERO + n] else Decimal(n / 10) + [ZERO + n % 10]
  }

  function PrintInt(n: int): Bytes
  {
    if n < 0 then [MINUS] + Decimal(-n) else Decimal(n)
  }

  /** A segment as it follows another. */
  function PrintSegment(s: Segment): Bytes
  {
    match s
    case FieldSegment(f) => [DOT] + f
    case IndexSegment(n) => [OPEN] + PrintInt(n) + [CLOSE]
  }

  function PrintRest(segments: seq<Segment>): Bytes
  {
    if segments == [] then [] else PrintSegment(segments[0]) + PrintRest(segments[1..])
  }

  /** The path of the segments: no dot before the first field. */
  function Print(segments: seq<Segment>): Bytes
  {
    var path := PrintRest(segments);
    if segments != [] && segments[0].FieldSegment? then path[1..] else path
  }

  lemma {:induction false} DecimalReads(n: nat)
    ensures var d := Decimal(n); d != [] && (forall i :: 0 <= i < |d| ==> IsDigit(d[i])) && Value(d) == n
  {
    if n >= 10 {
      DecimalReads(n / 10);
      var d := Decimal(n);
      assert d[..|d| - 1] == Decimal(n / 10);
    } else {
      assert Value([ZERO + n]) == Value([]) * 10 + n;
    }
  }

  lemma {:induction false} DigitsOfDigits(d: Bytes)
    requires forall i :: 0 <= i < |d| ==> IsDigit(d[i])
    ensures Digits(d) == d
  {
    if d != [] {
      DigitsOfDigits(d[1..]);
    }
  }

  lemma NoSpace(s: Bytes)
    requires s != [] && !IsSpace(s[0])
    ensures SkipSpace(s) == Some(s)
  {
  }

  /** The number after an optional sign. */
  lemma ScanIntIs(s: Bytes, digits: Bytes)
    requires s != [] && (IsDigit(s[0]) || s[0] == MINUS) && digits != [] && Digits(digits) == digits
    requires digits == if s[0] == PLUS || s[0] == MINUS then s[1..] else s
    ensures var n := if s[0] == MINUS then -Value(digits) else Value(digits);
            ScanInt(s) == if -0x8000_0000_0000_0000 <= n < 0x8000_0000_0000_0000 then Some(n) else None
  {
    assert !IsSpace(s[0]);
    NoSpace(s);
  }

  lemma SignedReads(sign: Bytes, digits: Bytes, n: int)
    requires sign == [] || sign == [MINUS]
    requires digits != [] && Digits(digits) == digits && n == if sign == [] then Value(digits) else -Value(digits)
    ensures ScanInt(sign + digits) == if -0x8000_0000_0000_0000 <= n < 0x8000_0000_0000_0000 then Some(n) else None
  {
    var text := sign + digits;
    assert IsDigit(Digits(digits)[0]);
    if sign == [] {
      assert text == digits && IsDigit(text[0]);
    } else {
      assert text[0] == MINUS && text[1..] == digits;
    }
    ScanIntIs(text, digits);
  }

  lemma DigitsAreClean(digits: Bytes)
    requires forall i :: 0 <= i < |digits| ==> IsDigit(digits[i])
    ensures Clean(digits) && Clean([MINUS] + digits)
  {
  }

  lemma IntReads(n: GoInt)
    ensures ScanInt(PrintInt(n)) == Some(n)
    ensures Clean(PrintInt(n))
  {
    var m: int := if n < 0 then -(n as int) else n;
    var digits := Decimal(m);
    DecimalReads(m);
    DigitsOfDigits(digits);
    DigitsAreClean(digits);
    if n < 0 {
      SignedReads([MINUS], digits, n);
    } else {
      assert [] + digits == digits;
      SignedReads([], digits, n);
    }
  }

  /** The field as the parser hands it on, its bytes taken for characters. */
  function Reencoded(f: Bytes): (r: Bytes)
    ensures |r| >= |f|
  {
    if f == [] then [] else Reencoded(f[..|f| - 1]) + Encode(f[|f| - 1])
  }

  function Seen(s: Segment): Segment
  {
    match s
    case FieldSegment(f) => FieldSegment(Reencoded(f))
    case IndexSegment(_) => s
  }

  function AllSeen(segments: seq<Segment>): seq<Segment>
  {
    seq(|segments|, i requires 0 <= i < |segments| => Seen(segments[i]))
  }

  ghost predicate Ascii(f: Bytes)
  {
    forall i :: 0 <= i < |f| ==> f[i] < 128
  }

  lemma AsciiLonger(f: Bytes, ch: Byte)
    ensures Ascii(f + [ch]) <==> Ascii(f) && ch < 128
  {
    var g := f + [ch];
    assert g[|f|] == ch && forall i :: 0 <= i < |f| ==> g[i] == f[i];
  }

  lemma {:induction false} ReencodedAscii(f: Bytes)
    ensures Reencoded(f) == f <==> Ascii(f)
    ensures !Ascii(f) ==> |Reencoded(f)| > |f|
  {
    if f != [] {
      var p, ch := f[..|f| - 1], f[|f| - 1];
      assert f == p + [ch];
      ReencodedAscii(p);
      AsciiLonger(p, ch);
      assert |Reencoded(f)| == |Reencoded(p)| + |Encode(ch)|;
    }
  }

  lemma {:induction false} ScanField(f: Bytes)
    requires Clean(f)
    ensures Scan(START, f) == START.(current := Reencoded(f))
  {
    if f != [] {
      var p, ch := f[..|f| - 1], f[|f| - 1];
      assert f == p + [ch];
      ScanField(p);
      ScanConcat(START, p, [ch]);
      assert [ch][1..] == [];
    }
  }

  lemma {:induction false} ScanIndex(s: Scanner, text: Bytes)
    requires Clean(text) && s.inBracket
    ensures Scan(s, text) == s.(indexStr := s.indexStr + text)
    decreases text
  {
    if text != [] {
      var next := Step(s, text[0]);
      ScanIndex(next, text[1..]);
      assert next.indexStr + text[1..] == s.indexStr + text;
    }
  }

  /** The index that stands for the text: a number, or -1 when there is none in it. */
  ghost predicate ReadAs(text: Bytes, n: GoInt)
  {
    ScanInt(text) == Some(n) || (ScanInt(text) == None && n == -1)
  }

  lemma CloseBracket(s: Scanner, n: GoInt)
    requires s.inBracket && s.current == [] && ReadAs(s.indexStr, n)
    ensures Scan(s, [CLOSE]) == Scanner(s.segments + [IndexSegment(n)], [], false, [])
  {
    assert [CLOSE][1..] == [];
    assert Scan(s, [CLOSE]) == Scan(Step(s, CLOSE), []);
  }

  /** What stands in brackets is read after anything, an open bracket included. */
  lemma ScanBracket(s: Scanner, text: Bytes, n: GoInt)
    requires Clean(text) && ReadAs(text, n)
    ensures Scan(s, [OPEN] + text + [CLOSE]) == Scanner(Flush(s) + [IndexSegment(n)], [], false, [])
  {
    var path := [OPEN] + text + [CLOSE];
    var inside := Scanner(Flush(s), [], true, []);
    assert path[0] == OPEN && path[1..] == text + [CLOSE];
    ScanIndex(inside, text);
    assert [] + text == text;
    ScanConcat(inside, text, [CLOSE]);
    CloseBracket(inside.(indexStr := text), n);
  }

  lemma ParseSegment(s: Segment)
    requires s.FieldSegment? ==> s.field != [] && Clean(s.field)
    ensures Parse(PrintSegment(s)) == [Seen(s)] && Closed(PrintSegment(s))
  {
    match s
    case FieldSegment(f) =>
      ScanField(f);
      assert ([DOT] + f)[1..] == f;
      assert Step(START, DOT) == START;
    case IndexSegment(n) =>
      IntReads(n);
      ScanBracket(START, PrintInt(n), n);
      assert Flush(START) + [s] == [s];
  }

  lemma PrintRestContinues(segments: seq<Segment>)
    requires segments != []
    ensures var q := PrintRest(segments); q != [] && (q[0] == DOT || q[0] == OPEN)
  {
  }

  lemma AllSeenStep(segments: seq<Segment>)
    requires segments != []
    ensures AllSeen(segments) == [Seen(segments[0])] + AllSeen(segments[1..])
  {
  }

  lemma {:induction false} ParsePrintRest(segments: seq<Segment>)
    requires forall f :: FieldSegment(f) in segments ==> f != [] && Clean(f)
    ensures Parse(PrintRest(segments)) == AllSeen(segments)
    decreases segments
  {
    if segments != [] {
      var first, rest := segments[0], segments[1..];
      ParseSegment(first);
      ParsePrintRest(rest);
      if rest == [] {
        assert PrintSegment(first) + [] == PrintSegment(first);
      } else {
        PrintRestContinues(rest);
        ParseConcat(PrintSegment(first), PrintRest(rest));
      }
      AllSeenStep(segments);
    }
  }

  lemma DotIsOptional(segments: seq<Segment>)
    ensures Parse(Print(segments)) == Parse(PrintRest(segments))
  {
    if segments != [] && segments[0].FieldSegment? {
      assert Step(START, DOT) == START;
    }
  }

  /** Every field is not empty, holds no separator and is ASCII. */
  ghost predicate Readable(segments: seq<Segment>)
  {
    forall f :: FieldSegment(f) in segments ==> f != [] && Clean(f) && Ascii(f)
  }

  /** Parsing undoes printing for exactly the fields that are not empty, hold no separator and
      are ASCII. Indices always survive. */
  lemma RoundTripExactly(segments: seq<Segment>)
    ensures Parse(Print(segments)) == segments <==> Readable(segments)
  {
    DotIsOptional(segments);
    if forall f :: FieldSegment(f) in segments ==> f != [] && Clean(f) {
      ParsePrintRest(segments);
      SeenAsIs(segments);
    } else {
      var f :| FieldSegment(f) in segments && !(f != [] && Clean(f));
      if FieldSegment(f) in Parse(Print(segments)) {
        FieldsAreClean(Print(segments), f);
      }
    }
  }

  lemma SeenAsIs(segments: seq<Segment>)
    ensures AllSeen(segments) == segments <==> forall f :: FieldSegment(f) in segments ==> Ascii(f)
  {
    forall i | 0 <= i < |segments|
      ensures Seen(segments[i]) == segments[i] <==> (segments[i].FieldSegment? ==> Ascii(segments[i].field))
    {
      if segments[i].FieldSegment? {
        ReencodedAscii(segments[i].field);
      }
    }
    if AllSeen(segments) == segments {
      forall f | FieldSegment(f) in segments ensures Ascii(f) {
        var i :| 0 <= i < |segments| && segments[i] == FieldSegment(f);
        assert AllSeen(segments)[i] == Seen(segments[i]);
      }
    }
  }

  // Navigation.

  datatype Json = Null | Scalar(value: int) | Object(entries: map<Bytes, Json>) | List(items: seq<Json>)

  function Child(v: Json, s: Segment): Option<Json>
  {
    match s
    case IndexSegment(n) => if v.List? && 0 <= n < |v.items| then Some(v.items[n]) else None
    case FieldSegment(f) => if v.Object? && f in v.entries then Some(v.entries[f]) else None
  }

  function Navigate(v: Json, segments: seq<Segment>): Option<Json>
    decreases segments
  {
    if segments == [] then Some(v)
    else
      match Child(v, segments[0])
      case None => None
      case Some(w) => Navigate(w, segments[1..])
  }

  /** What `Field` finds: nothing in a null or at the empty path. */
  function Found(v: Json, path: Bytes): Option<Json>
  {
    if v.Null? || path == [] then None else Navigate(v, Parse(path))
  }

  method Field(v: Json, path: Bytes) returns (found: Option<Json>)
    ensures found == Found(v, path)
  {
    if v == Null || path == [] {
      return None;
    }
    var segments := ParsePath(path);
    var current := v;
    for i := 0 to |segments|
      invariant Navigate(current, segments[i..]) == Navigate(v, segments)
    {
      var segment := segments[i];
      if segment.IndexSegment? {
        if !current.List? {
          return None;
        }
        if segment.index >= |current.items| || segment.index < 0 {
          return None;
        }
        current := current.items[segment.index];
      } else {
        if !current.Object? {
          return None;
        }
        if segment.field !in current.entries {
          return None;
        }
        var val := current.entries[segment.field];
        if val == Null && i < |segments| - 1 {
          assert Navigate(Null, segments[i + 1..]) == None;
          return None;
        }
        current := val;
      }
    }
    found := Some(current);
  }

  // Looking up what was printed. The document that has a value at the end of the segments, and
  // nothing else but what leads there, tells them from every other list of segments.

  function Nulls(n: nat): (r: seq<Json>)
    ensures |r| == n && forall i :: 0 <= i < n ==> r[i] == Null
  {
    if n == 0 then [] else Nulls(n - 1) + [Null]
  }

  /** No index is negative. */
  ghost predicate Counting(segments: seq<Segment>)
  {
    forall n :: IndexSegment(n) in segments ==> n >= 0
  }

  function Grown(segments: seq<Segment>): Json
    requires Counting(segments)
    decreases segments
  {
    if segments == [] then Scalar(0)
    else
      assert segments[0] in segments;
      match segments[0]
      case FieldSegment(f) => Object(map[f := Grown(segments[1..])])
      case IndexSegment(n) => List(Nulls(n) + [Grown(segments[1..])])
  }

  lemma {:induction false} GrownLeadsBack(segments: seq<Segment>, path: seq<Segment>)
    requires Counting(segments)
    ensures Navigate(Grown(segments), path) == Some(Scalar(0)) <==> path == segments
    decreases segments
  {
    if segments != [] && path != [] {
      var v, next := Grown(segments), Grown(segments[1..]);
      assert segments[0] in segments;
      assert path == [path[0]] + path[1..] && segments == [segments[0]] + segments[1..];
      if path[0] == segments[0] {
        GrownLeadsBack(segments[1..], path[1..]);
        assert Child(v, path[0]) == Some(next);
      } else {
        assert Child(v, path[0]) == None || Child(v, path[0]) == Some(Null);
        assert Navigate(Null, path[1..]) != Some(Scalar(0));
      }
    }
  }

  // A negative index leads nowhere, and survives printing whatever the fields are.

  lemma {:induction false} NegativeLeadsNowhere(v: Json, segments: seq<Segment>, n: GoInt)
    requires IndexSegment(n) in segments && n < 0
    ensures Navigate(v, segments) == None
    decreases segments
  {
    if segments[0] != IndexSegment(n) && Child(v, segments[0]).Some? {
      assert segments == [segments[0]] + segments[1..];
      NegativeLeadsNowhere(Child(v, segments[0]).value, segments[1..], n);
    }
  }

  lemma {:induction false} ScanKeeps(s: Scanner, path: Bytes, seg: Segment)
    requires seg in s.segments
    ensures seg in Scan(s, path).segments
    decreases path
  {
    if path != [] {
      ScanKeeps(Step(s, path[0]), path[1..], seg);
    }
  }

  lemma {:induction false} IndexSurvives(s: Scanner, segments: seq<Segment>, n: GoInt)
    requires IndexSegment(n) in segments
    ensures IndexSegment(n) in Scan(s, PrintRest(segments)).segments
    decreases segments
  {
    var first, rest := PrintSegment(segments[0]), segments[1..];
    assert segments == [segments[0]] + rest;
    ScanConcat(s, first, PrintRest(rest));
    if segments[0] == IndexSegment(n) {
      IntReads(n);
      ScanBracket(s, PrintInt(n), n);
      ScanKeeps(Scan(s, first), PrintRest(rest), IndexSegment(n));
    } else {
      IndexSurvives(Scan(s, first), rest, n);
    }
  }

  lemma NegativeFindsNothing(v: Json, segments: seq<Segment>, n: GoInt)
    requires IndexSegment(n) in segments && n < 0
    ensures Found(v, Print(segments)) == None == Navigate(v, segments)
  {
    NegativeLeadsNowhere(v, segments, n);
    IndexSurvives(START, segments, n);
    DotIsOptional(segments);
    NegativeLeadsNowhere(v, Parse(Print(segments)), n);
  }

  /** The text does not begin with a number: it is empty, or its first character, after a sign if it
      has one, is no digit, and no space. */
  predicate NoNumber(text: Bytes)
  {
    if text != [] && (text[0] == PLUS || text[0] == MINUS) then |text| == 1 || !IsDigit(text[1])
    else text == [] || !(IsDigit(text[0]) || IsSpace(text[0]))
  }

  /** Brackets around something that is no number make the whole lookup fail, wherever they stand. */
  lemma MalformedIndexFindsNothing(v: Json, p: Bytes, text: Bytes, q: Bytes)
    requires Clean(text) && NoNumber(text)
    ensures Found(v, p + [OPEN] + text + [CLOSE] + q) == None
  {
    var s := Scan(START, p);
    var bracket := [OPEN] + text + [CLOSE];
    var path := p + [OPEN] + text + [CLOSE] + q;
    assert ScanInt(text) == None;
    assert path == p + (bracket + q);
    ScanConcat(START, p, bracket + q);
    ScanConcat(s, bracket, q);
    ScanBracket(s, text, -1);
    ScanKeeps(Scan(s, bracket), q, IndexSegment(-1));
    NegativeLeadsNowhere(v, Parse(path), -1);
  }

  lemma ReadableIsFound(v: Json, segments: seq<Segment>)
    requires !v.Null? && segments != [] && Readable(segments)
    ensures Found(v, Print(segments)) == Navigate(v, segments)
  {
    RoundTripExactly(segments);
    assert Print(segments) != [] by {
      if segments[0].FieldSegment? {
        assert segments[0] == FieldSegment(segments[0].field) && segments[0] in segments;
      }
    }
  }

  /** Looking up a printed path goes step by step along its segments in every document exactly when
      there are segments and every field is not empty, holds no separator and is ASCII, or some
      index is negative and there is nothing to find. */
  lemma FieldFollowsPrint(segments: seq<Segment>)
    ensures (forall v: Json :: !v.Null? ==> Found(v, Print(segments)) == Navigate(v, segments))
            <==> segments != [] && (Readable(segments) || !Counting(segments))
  {
    if segments == [] {
      assert Found(Scalar(0), Print(segments)) != Navigate(Scalar(0), segments);
    } else if !Counting(segments) {
      var n :| IndexSegment(n) in segments && n < 0;
      forall v: Json ensures Found(v, Print(segments)) == Navigate(v, segments) {
        NegativeFindsNothing(v, segments, n);
      }
    } else if Readable(segments) {
      forall v: Json | !v.Null? ensures Found(v, Print(segments)) == Navigate(v, segments) {
        ReadableIsFound(v, segments);
      }
    } else {
      GrownLeadsBack(segments, segments);
      GrownLeadsBack(segments, Parse(Print(segments)));
      RoundTripExactly(segments);
      assert Found(Grown(segments), Print(segments)) != Navigate(Grown(segments), segments);
    }
  }

  /** A field with a letter outside ASCII, which is there and is not found. */
  lemma NonAsciiFieldMissed() returns (v: Json, field: Bytes)
    ensures Navigate(v, [FieldSegment(field)]) == Some(Scalar(0)) && Found(v, Print([FieldSegment(field)])) == None
  {
    field := [0xC3, 0xA9];
    var segments := [FieldSegment(field)];
    v := Grown(segments);
    GrownLeadsBack(segments, segments);
    DotIsOptional(segments);
    ParsePrintRest(segments);
    var seen := Reencoded(field);
    ReencodedAscii(field);
    assert !Ascii(field) by {
      assert field[0] >= 128;
    }
    assert Parse(Print(segments)) == [FieldSegment(seen)];
    assert v == Object(map[field := Scalar(0)]);
  }

  lemma {:induction false} NavigateConcat(v: Json, a: seq<Segment>, b: seq<Segment>)
    ensures Navigate(v, a + b) == match Navigate(v, a) case None => None case Some(w) => Navigate(w, b)
    decreases a
  {
    if a == [] {
      assert a + b == b;
    } else {
      assert (a + b)[1..] == a[1..] + b;
      if Child(v, a[0]).Some? {
        NavigateConcat(Child(v, a[0]).value, a[1..], b);
      }
    }
  }

  /** A path and its continuation, one after the other, find what the joined path finds, nulls
      on the way included, unless a null was found and the continuation is made of dots alone. */
  lemma FieldComposesExactly(v: Json, p: Bytes, q: Bytes)
    requires p != [] && Closed(p) && q != [] && (q[0] == DOT || q[0] == OPEN)
    ensures Found(v, p + q) == (match Found(v, p) case None => None case Some(w) => Found(w, q))
            <==> !(Found(v, p) == Some(Null) && Parse(q) == [])
  {
    if !v.Null? {
      ParseConcat(p, q);
      NavigateConcat(v, Parse(p), Parse(q));
    }
  }
}
