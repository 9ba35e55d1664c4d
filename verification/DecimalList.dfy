/** utils/string2id.go: integers as comma-separated text. */
module DecimalList {
  import opened Wrappers
  import opened Decimal
  import opened Strings

  // ----- text

  predicate IsSpace(c: char) {
    c in " \t\n\r"
    || c in {'\U{b}', '\U{c}', '\U{85}', '\U{a0}', '\U{1680}', '\U{2028}', '\U{2029}',
              '\U{202f}', '\U{205f}', '\U{3000}'}
    || '\U{2000}' <= c <= '\U{200a}'
  }

  /** These are the white space of Unicode. */
  lemma SpacesAre(c: char)
    ensures var n := c as int;
            IsSpace(c) <==>
            || 0x9 <= n <= 0xd || n == 0x20 || n == 0x85 || n == 0xa0 || n == 0x1680 || 0x2000 <= n <= 0x200a
            || n == 0x2028 || n == 0x2029 || n == 0x202f || n == 0x205f || n == 0x3000
  {
  }

  /** `strings.TrimSpace`. */
  function Trim(s: string): string
    decreases |s|
  {
    if s == "" then s
    else if IsSpace(s[0]) then Trim(s[1..])
    else if IsSpace(s[|s| - 1]) then Trim(s[..|s| - 1])
    else s
  }

  ghost predicate AllSpaces(s: string) {
    forall k :: 0 <= k < |s| ==> IsSpace(s[k])
  }

  lemma SpacesMore(a: string, c: char)
    requires AllSpaces(a) && IsSpace(c)
    ensures AllSpaces([c] + a) && AllSpaces(a + [c])
  {
  }

  /** Nothing but the spaces at both ends is gone, and all of them are. */
  lemma {:induction false} TrimIsInner(s: string) returns (a: string, b: string)
    ensures s == a + Trim(s) + b && AllSpaces(a) && AllSpaces(b)
    ensures var t := Trim(s); t != "" ==> !IsSpace(t[0]) && !IsSpace(t[|t| - 1])
    decreases |s|
  {
    a, b := "", "";
    var n := |s| - 1;
    if s == "" {
    } else if IsSpace(s[0]) {
      var t := Trim(s[1..]);
      a, b := TrimIsInner(s[1..]);
      SpacesMore(a, s[0]);
      assert s == [s[0]] + (a + t + b) == [s[0]] + a + t + b;
      a := [s[0]] + a;
    } else if IsSpace(s[n]) {
      var t := Trim(s[..n]);
      a, b := TrimIsInner(s[..n]);
      SpacesMore(b, s[n]);
      assert s == a + t + b + [s[n]] == a + t + (b + [s[n]]);
      b := b + [s[n]];
    }
  }

  /** `strings.Split` at commas. */
  function Split(s: string): (parts: seq<string>)
    ensures |parts| > 0
    decreases |s|
  {
    if s == "" then [""]
    else
      var parts := Split(s[..|s| - 1]);
      var last := |parts| - 1;
      if s[|s| - 1] == ',' then parts + [""] else parts[last := parts[last] + [s[|s| - 1]]]
  }

  /** The parts are separated by exactly the commas of the text. */
  lemma {:induction false} JoinOfSplit(s: string)
    ensures Join(Split(s), ",") == s && forall i :: 0 <= i < |Split(s)| ==> ',' !in Split(s)[i]
    decreases |s|
  {
    if s == "" {
    } else {
      var n := |s| - 1;
      JoinOfSplit(s[..n]);
      var parts := Split(s[..n]);
      assert s == s[..n] + [s[n]];
      if s[n] == ',' {
        assert (parts + [""])[..|parts|] == parts;
      } else {
        JoinOfLonger(parts, [s[n]]);
      }
    }
  }

  lemma JoinOfLonger(parts: seq<string>, p: string)
    requires |parts| > 0
    ensures var last := |parts| - 1; Join(parts[last := parts[last] + p], ",") == Join(parts, ",") + p
  {
    var last := |parts| - 1;
    var longer := parts[last := parts[last] + p];
    assert longer[..last] == parts[..last];
    assert Join(parts[..last], ",") + "," + (parts[last] + p) == Join(parts[..last], ",") + "," + parts[last] + p;
  }

  lemma {:induction false} SplitOfPart(s: string, p: string)
    requires ',' !in p
    ensures var parts := Split(s); Split(s + p) == parts[|parts| - 1 := parts[|parts| - 1] + p]
    decreases |p|
  {
    if p == "" {
      assert s + p == s && Split(s)[|Split(s)| - 1] + p == Split(s)[|Split(s)| - 1];
    } else {
      var n := |p| - 1;
      SplitOfPart(s, p[..n]);
      assert (s + p)[..|s + p| - 1] == s + p[..n];
      assert p == p[..n] + [p[n]];
      var parts := Split(s);
      assert parts[|parts| - 1] + p == parts[|parts| - 1] + p[..n] + [p[n]];
    }
  }

  lemma SplitOfNext(s: string, p: string)
    requires ',' !in p
    ensures Split(s + "," + p) == Split(s) + [p]
  {
    var t := s + ",";
    assert t[..|t| - 1] == s && t[|t| - 1] == ',';
    assert Split(t) == Split(s) + [""];
    SplitOfPart(t, p);
    assert "" + p == p;
  }

  lemma {:induction false} SplitOfJoin(parts: seq<string>)
    requires |parts| > 0 && forall i :: 0 <= i < |parts| ==> ',' !in parts[i]
    ensures Split(Join(parts, ",")) == parts
    decreases |parts|
  {
    var n := |parts| - 1;
    var p := parts[n];
    assert parts == parts[..n] + [p];
    if n == 0 {
      SplitOfPart("", p);
      assert "" + p == p;
    } else {
      SplitOfJoin(parts[..n]);
      SplitOfNext(Join(parts[..n], ","), p);
    }
  }

  // ----- lists of numbers

  /** The first occurrence of each element. */
  function Dedup(xs: seq<int>): (r: seq<int>)
    decreases |xs|
  {
    if xs == [] then []
    else
      var n := |xs| - 1;
      Dedup(xs[..n]) + if xs[n] in xs[..n] then [] else [xs[n]]
  }

  predicate InInt64(x: int) { MIN_INT64 <= x <= MAX_INT64 }

  /** The numbers that `ParseInt` can read, in order. */
  function Readable(xs: seq<int>): (r: seq<int>)
    decreases |xs|
  {
    if xs == [] then []
    else
      var n := |xs| - 1;
      Readable(xs[..n]) + if InInt64(xs[n]) then [xs[n]] else []
  }

  lemma DedupMore(xs: seq<int>, x: int)
    ensures Dedup(xs + [x]) == if x in xs then Dedup(xs) else Dedup(xs) + [x]
  {
    assert (xs + [x])[..|xs|] == xs;
  }

  lemma ReadableMore(xs: seq<int>, x: int)
    ensures Readable(xs + [x]) == if InInt64(x) then Readable(xs) + [x] else Readable(xs)
  {
    assert (xs + [x])[..|xs|] == xs;
  }

  lemma {:induction false} DedupHas(xs: seq<int>, x: int)
    ensures x in Dedup(xs) <==> x in xs
    decreases |xs|
  {
    if xs == [] {
    } else {
      var n := |xs| - 1;
      assert xs == xs[..n] + [xs[n]];
      DedupHas(xs[..n], x);
    }
  }

  lemma {:induction false} ReadableHas(xs: seq<int>, x: int)
    ensures x in Readable(xs) <==> x in xs && InInt64(x)
    decreases |xs|
  {
    if xs == [] {
    } else {
      var n := |xs| - 1;
      assert xs == xs[..n] + [xs[n]];
      ReadableHas(xs[..n], x);
    }
  }

  ghost predicate Distinct(xs: seq<int>) {
    forall i, j :: 0 <= i < j < |xs| ==> xs[i] != xs[j]
  }

  lemma {:induction false} DedupIsDistinct(xs: seq<int>)
    ensures Distinct(Dedup(xs))
    decreases |xs|
  {
    if xs == [] {
    } else {
      var n := |xs| - 1;
      DedupIsDistinct(xs[..n]);
      DedupHas(xs[..n], xs[n]);
    }
  }

  lemma {:induction false} DedupOfDistinct(xs: seq<int>)
    requires Distinct(xs)
    ensures Dedup(xs) == xs
    decreases |xs|
  {
    if xs == [] {
    } else {
      DedupOfDistinct(xs[..|xs| - 1]);
    }
  }

  lemma {:induction false} ReadableOfDedup(xs: seq<int>)
    ensures Dedup(Readable(xs)) == Readable(Dedup(xs))
    decreases |xs|
  {
    if xs == [] {
    } else {
      var n := |xs| - 1;
      var rest, x := xs[..n], xs[n];
      ReadableOfDedup(rest);
      assert xs == rest + [x];
      ReadableMore(rest, x);
      DedupMore(rest, x);
      ReadableHas(rest, x);
      DedupMore(Readable(rest), x);
      ReadableMore(Dedup(rest), x);
    }
  }

  lemma {:induction false} ReadableIsAllIff(xs: seq<int>)
    ensures |Readable(xs)| <= |xs|
    ensures Readable(xs) == xs <==> forall i :: 0 <= i < |xs| ==> InInt64(xs[i])
    decreases |xs|
  {
    if xs == [] {
    } else {
      var n := |xs| - 1;
      ReadableIsAllIff(xs[..n]);
      assert xs == xs[..n] + [xs[n]];
      if Readable(xs) == xs {
        assert InInt64(xs[n]);
      }
    }
  }

  /** The number a part stands for, if it parses; `conv` is the conversion from `int64` to the type of the list. */
  function Read(conv: int -> int, part: string): Option<int> {
    var p := ParseInt(Trim(part));
    if p.Some? then Some(conv(p.value)) else None
  }

  /** The numbers read from a list of parts; what does not parse is skipped. */
  function Numbers(conv: int -> int, parts: seq<string>): seq<int>
    decreases |parts|
  {
    if parts == [] then []
    else
      var n := |parts| - 1;
      var p := Read(conv, parts[n]);
      Numbers(conv, parts[..n]) + if p.Some? then [p.value] else []
  }

  function ShowAll(xs: seq<int>): (r: seq<string>)
    ensures |r| == |xs| && forall i :: 0 <= i < |xs| ==> r[i] == ShowInt(xs[i])
  {
    seq(|xs|, i requires 0 <= i < |xs| => ShowInt(xs[i]))
  }

  lemma ReadOfShow(conv: int -> int, x: int)
    ensures Read(conv, ShowInt(x)) == if InInt64(x) then Some(conv(x)) else None
  {
    ShownPart(x);
    ParseOfShow(x);
  }

  lemma ShownPart(x: int)
    ensures ',' !in ShowInt(x) && Trim(ShowInt(x)) == ShowInt(x) && ShowInt(x) != ""
  {
    var s := ShowInt(x);
    assert forall i :: 0 <= i < |s| ==> IsDigit(s[i]) || s[i] == '-';
  }

  lemma NumbersMore(conv: int -> int, parts: seq<string>, part: string)
    ensures var p := Read(conv, part);
            Numbers(conv, parts + [part]) == if p.Some? then Numbers(conv, parts) + [p.value] else Numbers(conv, parts)
  {
    assert (parts + [part])[..|parts|] == parts;
  }

  /** All are values of that type. */
  ghost predicate AllFit(conv: int -> int, xs: seq<int>) {
    forall i :: 0 <= i < |xs| ==> conv(xs[i]) == xs[i]
  }

  lemma ShownMore(conv: int -> int, xs: seq<int>, x: int)
    requires conv(x) == x
    ensures Numbers(conv, ShowAll(xs + [x])) ==
            if InInt64(x) then Numbers(conv, ShowAll(xs)) + [x] else Numbers(conv, ShowAll(xs))
  {
    assert ShowAll(xs + [x]) == ShowAll(xs) + [ShowInt(x)];
    NumbersMore(conv, ShowAll(xs), ShowInt(x));
    ReadOfShow(conv, x);
  }

  lemma {:induction false} NumbersOfShown(conv: int -> int, xs: seq<int>)
    requires AllFit(conv, xs)
    ensures Numbers(conv, ShowAll(xs)) == Readable(xs)
    decreases |xs|
  {
    if xs == [] {
    } else {
      var rest, x := xs[..|xs| - 1], xs[|xs| - 1];
      assert xs == rest + [x];
      NumbersOfShown(conv, rest);
      ShownMore(conv, rest, x);
      ReadableMore(rest, x);
    }
  }

  function Parsed(conv: int -> int, s: string): seq<int> {
    Dedup(Numbers(conv, Split(s)))
  }

  function Printed(xs: seq<int>): string {
    Join(ShowAll(Dedup(xs)), ",")
  }

  lemma SplitOfOne(p: string)
    requires ',' !in p
    ensures Split(p) == [p]
  {
    SplitOfPart("", p);
    assert "" + p == p && Split("") == [""];
  }

  lemma NumbersOfOne(conv: int -> int, p: string)
    ensures var n := Read(conv, p); Numbers(conv, [p]) == if n.Some? then [n.value] else []
  {
    NumbersMore(conv, [], p);
    assert [] + [p] == [p];
  }

  /** What is read from a text with one more part: one more number at the end, if the part stands for one, which is
    * trimmed first, and if that is new. */
  lemma ParsedMore(conv: int -> int, s: string, p: string)
    requires ',' !in p
    ensures var n := ParseInt(Trim(p));
            && Parsed(conv, p) == (if n.Some? then [conv(n.value)] else [])
            && Parsed(conv, s + "," + p) ==
               var xs := Parsed(conv, s);
               if n.Some? && conv(n.value) !in xs then xs + [conv(n.value)] else xs
  {
    SplitOfOne(p);
    NumbersOfOne(conv, p);
    SplitOfNext(s, p);
    NumbersMore(conv, Split(s), p);
    var n := Read(conv, p);
    if n.Some? {
      DedupNext(Numbers(conv, Split(s)), n.value);
    }
  }

  lemma DedupNext(xs: seq<int>, x: int)
    ensures Dedup([x]) == [x] && Dedup(xs + [x]) == if x in Dedup(xs) then Dedup(xs) else Dedup(xs) + [x]
  {
    DedupOfDistinct([x]);
    DedupMore(xs, x);
    DedupHas(xs, x);
  }

  lemma DedupFits(conv: int -> int, xs: seq<int>)
    requires AllFit(conv, xs)
    ensures AllFit(conv, Dedup(xs))
  {
    var ys := Dedup(xs);
    forall i | 0 <= i < |ys| ensures conv(ys[i]) == ys[i] {
      DedupHas(xs, ys[i]);
    }
  }

  lemma SplitOfShown(xs: seq<int>)
    requires xs != []
    ensures Split(Join(ShowAll(xs), ",")) == ShowAll(xs)
  {
    forall i | 0 <= i < |xs| ensures ',' !in ShowAll(xs)[i] {
      ShownPart(xs[i]);
    }
    SplitOfJoin(ShowAll(xs));
  }

  /** Main result: reading back what was printed gives the list without its later duplicates, and without the numbers
    * beyond the range of `int64`. */
  lemma ParsedOfPrinted(conv: int -> int, xs: seq<int>)
    requires AllFit(conv, xs)
    ensures Parsed(conv, Printed(xs)) == Dedup(Readable(xs))
  {
    var ys := Dedup(xs);
    DedupFits(conv, xs);
    ReadableOfDedup(xs);
    NumbersOfShown(conv, ys);
    if ys == [] {
      NumbersMore(conv, [], "");
      assert [] + [""] == [""] == Split("");
    } else {
      SplitOfShown(ys);
    }
    DedupIsDistinct(Readable(xs));
    DedupOfDistinct(Dedup(Readable(xs)));
  }

  /** What was converted is a value of the type. */
  ghost predicate Converts(conv: int -> int) {
    forall x :: conv(conv(x)) == conv(x)
  }

  lemma {:induction false} NumbersFit(conv: int -> int, parts: seq<string>)
    requires Converts(conv)
    ensures AllFit(conv, Numbers(conv, parts))
    decreases |parts|
  {
    if parts == [] {
    } else {
      NumbersFit(conv, parts[..|parts| - 1]);
    }
  }

  /** What the part stands for, if anything, is a number of `int64`. */
  predicate StaysReadable(conv: int -> int, part: string) {
    var p := Read(conv, part);
    p.Some? ==> InInt64(p.value)
  }

  ghost predicate AllReadable(xs: seq<int>) {
    forall x :: x in xs ==> InInt64(x)
  }

  ghost predicate AllStayReadable(conv: int -> int, parts: seq<string>) {
    forall part :: part in parts ==> StaysReadable(conv, part)
  }

  lemma AllReadableMore(xs: seq<int>, x: int)
    ensures AllReadable(xs + [x]) <==> AllReadable(xs) && InInt64(x)
  {
    assert x in xs + [x] && forall y :: y in xs ==> y in xs + [x];
  }

  lemma AllStayReadableMore(conv: int -> int, parts: seq<string>, part: string)
    ensures AllStayReadable(conv, parts + [part]) <==> AllStayReadable(conv, parts) && StaysReadable(conv, part)
  {
    assert part in parts + [part] && forall p :: p in parts ==> p in parts + [part];
  }

  lemma {:induction false} NumbersReadableIff(conv: int -> int, parts: seq<string>)
    ensures AllReadable(Numbers(conv, parts)) <==> AllStayReadable(conv, parts)
    decreases |parts|
  {
    if parts == [] {
    } else {
      var front, part := parts[..|parts| - 1], parts[|parts| - 1];
      assert parts == front + [part];
      NumbersReadableIff(conv, front);
      NumbersMore(conv, front, part);
      AllStayReadableMore(conv, front, part);
      var p := Read(conv, part);
      if p.Some? {
        AllReadableMore(Numbers(conv, front), p.value);
      }
    }
  }

  lemma DedupReadableIff(xs: seq<int>)
    ensures AllReadable(Dedup(xs)) <==> AllReadable(xs)
  {
    forall x ensures x in Dedup(xs) <==> x in xs {
      DedupHas(xs, x);
    }
  }

  lemma ReadableIsAll(xs: seq<int>)
    ensures Readable(xs) == xs <==> AllReadable(xs)
  {
    ReadableIsAllIff(xs);
    if AllReadable(xs) {
      assert forall i :: 0 <= i < |xs| ==> xs[i] in xs;
    }
  }

  /** Printing and reading again changes nothing of what was read from a text, exactly if no part of it stands for a
    * number beyond `int64`. */
  lemma ReparseIff(conv: int -> int, s: string)
    requires Converts(conv)
    ensures Parsed(conv, Printed(Parsed(conv, s))) == Parsed(conv, s) <==>
            AllStayReadable(conv, Split(s))
  {
    var xs := Parsed(conv, s);
    NumbersFit(conv, Split(s));
    DedupFits(conv, Numbers(conv, Split(s)));
    ParsedOfPrinted(conv, xs);
    ReadableOfDedup(xs);
    DedupIsDistinct(Numbers(conv, Split(s)));
    DedupOfDistinct(xs);
    ReadableIsAll(xs);
    DedupReadableIff(Numbers(conv, Split(s)));
    NumbersReadableIff(conv, Split(s));
  }

  lemma ParsedOne(conv: int -> int, x: int)
    requires InInt64(x)
    ensures Parsed(conv, ShowInt(x)) == [conv(x)]
  {
    SplitOfShown([x]);
    assert ShowAll([x]) == [ShowInt(x)];
    NumbersMore(conv, [], ShowInt(x));
    assert [] + [ShowInt(x)] == [ShowInt(x)];
    ReadOfShow(conv, x);
    DedupOfDistinct([conv(x)]);
  }

  // ----- the integer types of Go

  /** A Go integer type. */
  datatype IntType = IntType(bits: Bits, signed: bool)

  type Bits = b: int | b == 8 || b == 16 || b == 32 || b == 64 witness 64

  function Span(t: IntType): (n: int)
    ensures n > 0
  {
    if t.bits == 8 then 0x100 else if t.bits == 16 then 0x1_0000 else if t.bits == 32 then 0x1_0000_0000
    else 0x1_0000_0000_0000_0000
  }

  predicate Fits(t: IntType, x: int) {
    if t.signed then -Span(t) <= 2 * x < Span(t) else 0 <= x < Span(t)
  }

  /** The conversion `T(x)`, which wraps around. */
  function Convert(t: IntType, x: int): (y: int)
    ensures Fits(t, y) && (Fits(t, x) ==> y == x)
  {
    var m := if t.bits == 8 then x % 0x100 else if t.bits == 16 then x % 0x1_0000
             else if t.bits == 32 then x % 0x1_0000_0000 else x % 0x1_0000_0000_0000_0000;
    if t.signed && 2 * m >= Span(t) then m - Span(t) else m
  }

  function Into(t: IntType): int -> int {
    x => Convert(t, x)
  }

  /** It keeps the number up to a multiple of 2 to the power of the width. */
  lemma ConvertWraps(t: IntType, x: int) returns (q: int)
    ensures Convert(t, x) == x + q * Span(t)
  {
    q := -(x / Span(t));
    if Convert(t, x) < 0 {
      q := q - 1;
    }
  }

  lemma IntoConverts(t: IntType)
    ensures Converts(Into(t))
  {
  }

  /** So reading is stable for every type but the unsigned ones of 64 bits. */
  lemma ReparseIsStable(t: IntType, s: string)
    requires t.signed || t.bits < 64
    ensures Parsed(Into(t), Printed(Parsed(Into(t), s))) == Parsed(Into(t), s)
  {
    IntoConverts(t);
    forall part | part in Split(s) ensures StaysReadable(Into(t), part) {
      var p := Read(Into(t), part);
      assert p.Some? ==> Fits(t, p.value);
    }
    ReparseIff(Into(t), s);
  }

  const UINT64 := IntType(64, false)

  /** For those it is stable exactly if no part reads as a negative number. */
  lemma UnsignedReparseIff(s: string)
    ensures Parsed(Into(UINT64), Printed(Parsed(Into(UINT64), s))) == Parsed(Into(UINT64), s) <==>
            forall part :: part in Split(s) ==> !ReadsNegative(part)
  {
    IntoConverts(UINT64);
    forall part ensures StaysReadable(Into(UINT64), part) <==> !ReadsNegative(part) {
      WrapsIff(part);
    }
    ReparseIff(Into(UINT64), s);
  }

  predicate ReadsNegative(part: string) {
    var p := ParseInt(Trim(part));
    p.Some? && p.value < 0
  }

  lemma WrapsIff(part: string)
    ensures StaysReadable(Into(UINT64), part) <==> !ReadsNegative(part)
  {
    var p := ParseInt(Trim(part));
    if p.Some? {
      assert MIN_INT64 <= p.value <= MAX_INT64;
      assert Into(UINT64)(p.value) == if p.value < 0 then p.value + 0x1_0000_0000_0000_0000 else p.value;
    }
  }

  /** For those, a negative number is read as one that cannot be read again. */
  lemma NegativesAreLost(x: int)
    requires MIN_INT64 <= x < 0
    ensures Parsed(Into(UINT64), ShowInt(x)) == [x + 0x1_0000_0000_0000_0000]
    ensures Parsed(Into(UINT64), Printed([x + 0x1_0000_0000_0000_0000])) == []
  {
    var y := x + 0x1_0000_0000_0000_0000;
    assert Into(UINT64)(x) == y && Into(UINT64)(y) == y;
    ParsedOne(Into(UINT64), x);
    ParsedOfPrinted(Into(UINT64), [y]);
    ReadableMore([], y);
    assert [] + [y] == [y];
  }

  // ----- the code

  lemma JoinOneMore(parts: seq<string>, p: string)
    ensures Join(parts + [p], ",") == Join(parts, ",") + (if parts == [] then "" else ",") + p
  {
    assert (parts + [p])[..|parts|] == parts;
  }

  /** One more number is written, with a comma before it unless it is the first of all; one that was there is not. */
  lemma PrintedMore(xs: seq<int>, x: int)
    ensures Printed([]) == ""
    ensures Printed(xs + [x]) ==
            if x in xs then Printed(xs) else Printed(xs) + (if xs == [] then "" else ",") + ShowInt(x)
  {
    DedupMore(xs, x);
    var ys := Dedup(xs);
    if x !in xs {
      JoinOneMore(ShowAll(ys), ShowInt(x));
      assert ShowAll(ys + [x]) == ShowAll(ys) + [ShowInt(x)];
      if xs != [] {
        DedupHas(xs, xs[0]);
      }
    }
  }

  method ReadPart(conv: int -> int, str: string) returns (num: Option<int>)
    ensures num == Read(conv, str)
  {
    var part := Trim(str);
    if part == "" {
      return None;
    }
    var parsed := ParseInt(part);
    if parsed.None? {
      return None;
    }
    num := Some(conv(parsed.value));
  }

  method Keep(nums: seq<int>, seen: set<int>, x: int) returns (nums': seq<int>, seen': set<int>)
    requires seen == set y | y in nums
    ensures nums' == if x in nums then nums else nums + [x]
    ensures seen' == set y | y in nums'
  {
    nums', seen' := nums, seen;
    if x !in seen {
      nums', seen' := nums + [x], seen + {x};
    }
  }

  /** One turn of the loop: `before` are the parts dealt with. */
  method Add(conv: int -> int, nums: seq<int>, seen: set<int>, part: string, ghost before: seq<string>)
    returns (nums': seq<int>, seen': set<int>)
    requires nums == Dedup(Numbers(conv, before)) && seen == set x | x in nums
    ensures nums' == Dedup(Numbers(conv, before + [part])) && seen' == set x | x in nums'
  {
    NumbersMore(conv, before, part);
    nums', seen' := nums, seen;
    var num := ReadPart(conv, part);
    if num.Some? {
      DedupMore(Numbers(conv, before), num.value);
      DedupHas(Numbers(conv, before), num.value);
      nums', seen' := Keep(nums, seen, num.value);
    }
  }

  method StringToSlice(conv: int -> int, str: string) returns (nums: seq<int>)
    ensures nums == Parsed(conv, str)
  {
    var parts := Split(str);
    var seen := {};
    nums := [];
    assert parts[..0] == [];
    for i := 0 to |parts|
      invariant nums == Dedup(Numbers(conv, parts[..i]))
      invariant seen == set x | x in nums
    {
      assert parts[..i + 1] == parts[..i] + [parts[i]];
      nums, seen := Add(conv, nums, seen, parts[i], parts[..i]);
    }
    assert parts[..|parts|] == parts;
  }

  lemma SetMore(xs: seq<int>, x: int)
    ensures (set y | y in xs + [x]) == (set y | y in xs) + {x}
  {
  }

  /** One turn of the loop, at the index `i`: `before` are the numbers dealt with. */
  method Write(text: string, seen: set<int>, i: nat, num: int, ghost before: seq<int>)
    returns (text': string, seen': set<int>)
    requires i == |before| && text == Printed(before) && seen == set x | x in before
    ensures text' == Printed(before + [num]) && seen' == set x | x in before + [num]
  {
    SetMore(before, num);
    if num in seen {
      DedupMore(before, num);
      return text, seen;
    }
    PrintedMore(before, num);
    text' := text;
    if i > 0 {
      text' := text' + ",";
    }
    text', seen' := text' + ShowInt(num), seen + {num};
  }

  method IntSliceToString(nums: seq<int>) returns (s: string)
    ensures s == Printed(nums)
  {
    s := "";
    var seen := {};
    for i := 0 to |nums|
      invariant s == Printed(nums[..i])
      invariant seen == set x | x in nums[..i]
    {
      assert nums[..i + 1] == nums[..i] + [nums[i]];
      s, seen := Write(s, seen, i, nums[i], nums[..i]);
    }
    assert nums[..|nums|] == nums;
  }
}
