/** Dotted field paths with array subscripts: splitting, parsing and printing. */
module FieldPath {

  // ---------- Splitting ----------

  /** Where a character first occurs, or the length. */
  function Find(s: string, sep: char): (i: nat)
    ensures i <= |s| && sep !in s[..i]
    ensures i < |s| ==> s[i] == sep
  {
    if s == [] || s[0] == sep then 0
    else
      var i := 1 + Find(s[1..], sep);
      assert s[..i] == [s[0]] + s[1..][..i - 1];
      i
  }

  function Split(s: string, sep: char): (r: seq<string>)
    ensures r != []
    decreases |s|
  {
    var i := Find(s, sep);
    if i == |s| then [s] else [s[..i]] + Split(s[i + 1..], sep)
  }

  function Join(pieces: seq<string>, sep: char): string {
    if pieces == [] then []
    else if |pieces| == 1 then pieces[0]
    else pieces[0] + [sep] + Join(pieces[1..], sep)
  }

  ghost predicate Free(pieces: seq<string>, sep: char) {
    forall i :: 0 <= i < |pieces| ==> sep !in pieces[i]
  }

  /** The pieces joined by the separator give back the input, and contain no separator. */
  lemma {:induction false} JoinSplit(s: string, sep: char)
    ensures Join(Split(s, sep), sep) == s && Free(Split(s, sep), sep)
    decreases |s|
  {
    var i := Find(s, sep);
    if i == |s| {
      assert s[..i] == s;
    } else {
      JoinSplit(s[i + 1..], sep);
      assert s == s[..i] + [sep] + s[i + 1..];
      assert Split(s, sep)[1..] == Split(s[i + 1..], sep);
    }
  }

  lemma {:induction false} FindAfter(a: string, b: string, sep: char)
    requires sep !in a
    ensures Find(a + [sep] + b, sep) == |a|
  {
    var s := a + [sep] + b;
    if a != [] {
      assert s[0] == a[0];
      assert s[1..] == a[1..] + [sep] + b;
      FindAfter(a[1..], b, sep);
    }
  }

  lemma {:induction false} SplitJoin(pieces: seq<string>, sep: char)
    requires pieces != [] && Free(pieces, sep)
    ensures Split(Join(pieces, sep), sep) == pieces
  {
    if |pieces| == 1 {
      var s := pieces[0];
      var i := Find(s, sep);
      assert i == |s|;
      assert pieces == [s];
    } else {
      var s := Join(pieces, sep);
      var first, rest := pieces[0], Join(pieces[1..], sep);
      assert s == first + [sep] + rest;
      FindAfter(first, rest, sep);
      assert Split(s, sep) == [s[..|first|]] + Split(s[|first| + 1..], sep);
      assert s[..|first|] == first && s[|first| + 1..] == rest;
      SplitJoin(pieces[1..], sep);
    }
  }

  /** A cursor over a string, which gives its pieces one by one. */
  class Splitter {
    const text: string
    const sep: char
    var more: bool
    var cur: nat
    var end: nat
    /** The pieces still to come. */
    ghost var rest: seq<string>

    ghost predicate Valid()
      reads this
    {
      if more then
        && cur <= |text| && end == cur + Find(text[cur..], sep)
        && rest == Split(text[cur..], sep)
      else
        rest == []
    }

    constructor (text: string, sep: char)
      ensures Valid() && rest == Split(text, sep)
    {
      this.text, this.sep, more, cur := text, sep, true, 0;
      end := Find(text, sep);
      rest := Split(text, sep);
      new;
      assert text[0..] == text;
    }

    method Snip() returns (ok: bool, piece: string)
      requires Valid()
      modifies this
      ensures Valid()
      ensures ok <==> old(rest) != []
      ensures ok ==> [piece] + rest == old(rest)
      ensures !ok ==> rest == []
    {
      if !more { return false, ""; }
      SplitStep(text, cur, end, sep);
      ok, piece := true, text[cur..end];
      rest := rest[1..];
      if end < |text| {
        cur := end + 1;
        end := cur + Find(text[cur..], sep);
      } else {
        more := false;
      }
    }
  }

  lemma SplitStep(text: string, cur: nat, end: nat, sep: char)
    requires cur <= |text| && end == cur + Find(text[cur..], sep)
    ensures end == |text| ==> Split(text[cur..], sep) == [text[cur..end]]
    ensures end < |text| ==> Split(text[cur..], sep) == [text[cur..end]] + Split(text[end + 1..], sep)
  {
    var rest := text[cur..];
    assert rest[..end - cur] == text[cur..end];
    if end < |text| {
      assert rest[end - cur + 1..] == text[end + 1..];
      assert Split(rest, sep) == [rest[..end - cur]] + Split(rest[end - cur + 1..], sep);
    } else {
      assert rest[..end - cur] == rest;
    }
  }

  // ---------- Components ----------

  const NO_INDEX: nat := 0xFFFF_FFFF
  const MODULUS: nat := 0x1_0000_0000

  /** An index of NO_INDEX means that there is no subscript. */
  datatype Component = Component(name: string, index: nat)

  datatype Error = EmptyComponent | BadSubscript

  datatype Result<T> = Ok(value: T) | Err(error: Error)

  predicate IsDigit(c: char) {
    '0' <= c <= '9'
  }

  predicate AllDigits(s: string) {
    forall i :: 0 <= i < |s| ==> IsDigit(s[i])
  }

  /** The value of a subscript, in 32-bit arithmetic. */
  function Value(s: string): (v: nat)
    requires AllDigits(s)
    ensures v < MODULUS
  {
    if s == [] then 0
    else (10 * Value(s[..|s| - 1]) + (s[|s| - 1] as int - '0' as int)) % MODULUS
  }

  function Decimal(n: nat): (s: string)
    ensures s != [] && AllDigits(s)
  {
    if n < 10 then [('0' as int + n) as char]
    else Decimal(n / 10) + [('0' as int + n % 10) as char]
  }

  /** Where a character last occurs. */
  function FindLast(s: string, c: char): (i: int)
    ensures -1 <= i < |s| && (0 <= i ==> s[i] == c)
    ensures forall k :: i < k < |s| ==> s[k] != c
  {
    if s == [] then -1
    else if s[|s| - 1] == c then |s| - 1
    else FindLast(s[..|s| - 1], c)
  }

  function ParsePart(part: string): Result<Component> {
    var n := |part|;
    if n == 0 then Err(EmptyComponent)
    else if part[n - 1] == ']' then
      var open := FindLast(part, '[');
      if open == -1 then Err(BadSubscript)
      else if !AllDigits(part[open + 1..n - 1]) then Err(BadSubscript)
      else Ok(Component(part[..open], Value(part[open + 1..n - 1])))
    else Ok(Component(part, NO_INDEX))
  }

  function ParseParts(parts: seq<string>): (r: Result<seq<Component>>)
    ensures r.Ok? ==> |r.value| == |parts|
  {
    if parts == [] then Ok([])
    else
      var last := |parts| - 1;
      match ParseParts(parts[..last])
      case Err(e) => Err(e)
      case Ok(cs) =>
        match ParsePart(parts[last])
        case Err(e) => Err(e)
        case Ok(c) => Ok(cs + [c])
  }

  function Parse(path: string): Result<seq<Component>> {
    if path == [] then Ok([]) else ParseParts(Split(path, '.'))
  }

  function ShowPart(c: Component): string {
    if c.index == NO_INDEX then c.name else c.name + "[" + Decimal(c.index) + "]"
  }

  function ShowParts(cs: seq<Component>): (r: seq<string>)
    ensures |r| == |cs|
    ensures forall i :: 0 <= i < |cs| ==> r[i] == ShowPart(cs[i])
  {
    seq(|cs|, i requires 0 <= i < |cs| => ShowPart(cs[i]))
  }

  function Show(cs: seq<Component>): string {
    if cs == [] then "/" else Join(ShowParts(cs), '.')
  }

  // ---------- Round trips ----------

  /** A component without a subscript needs a name which cannot be taken for one with. */
  predicate WellFormed(c: Component) {
    c.index == NO_INDEX ==> c.name != [] && c.name[|c.name| - 1] != ']'
  }

  /** What every component of a path is: its name has no dot, and its index is 32 bits. */
  predicate Possible(c: Component) {
    '.' !in c.name && c.index < MODULUS
  }

  lemma {:induction false} FindLastBefore(a: string, b: string, c: char)
    requires c !in b
    ensures FindLast(a + [c] + b, c) == |a|
  {
    var s := a + [c] + b;
    if b != [] {
      assert s[|s| - 1] == b[|b| - 1];
      assert s[..|s| - 1] == a + [c] + b[..|b| - 1];
      FindLastBefore(a, b[..|b| - 1], c);
    }
  }

  lemma ParseSubscript(name: string, digits: string)
    requires AllDigits(digits)
    ensures ParsePart(name + "[" + digits + "]") == Ok(Component(name, Value(digits)))
  {
    var part := name + "[" + digits + "]";
    FindLastBefore(name, digits + "]", '[');
    assert part == name + ['['] + (digits + "]");
    assert part[..|name|] == name;
    assert part[|name| + 1..|part| - 1] == digits;
  }

  lemma ParseShowSubscript(name: string, index: nat)
    requires index < MODULUS
    ensures ParsePart(name + "[" + Decimal(index) + "]") == Ok(Component(name, index))
  {
    ParseSubscript(name, Decimal(index));
    ValueDecimal(index);
  }

  lemma ParseBareName(name: string)
    ensures ParsePart(name) == Ok(Component(name, NO_INDEX)) <==> name != [] && name[|name| - 1] != ']'
  {
    var open := FindLast(name, '[');
    if name != [] && name[|name| - 1] == ']' && open != -1 { assert name[..open] != name; }
  }

  lemma ParseShowPart(c: Component)
    requires Possible(c)
    ensures ParsePart(ShowPart(c)) == Ok(c) <==> WellFormed(c)
  {
    if c.index != NO_INDEX { ParseShowSubscript(c.name, c.index); } else { ParseBareName(c.name); }
  }

  lemma {:induction false} ParsePartsAt(parts: seq<string>, cs: seq<Component>)
    ensures ParseParts(parts) == Ok(cs)
            <==> |cs| == |parts| && forall i :: 0 <= i < |parts| ==> ParsePart(parts[i]) == Ok(cs[i])
  {
    if parts == [] {
    } else if cs == [] {
    } else {
      var k := |parts| - 1;
      ParsePartsAt(parts[..k], cs[..|cs| - 1]);
      assert cs == cs[..|cs| - 1] + [cs[|cs| - 1]];
    }
  }

  lemma ShownPartsHaveNoDot(cs: seq<Component>)
    requires forall i :: 0 <= i < |cs| ==> Possible(cs[i])
    ensures Free(ShowParts(cs), '.')
  {}

  lemma {:induction false} JoinEmpty(pieces: seq<string>, sep: char)
    ensures Join(pieces, sep) == [] <==> pieces == [] || pieces == [[]]
  {
    if |pieces| > 1 {
      assert Join(pieces, sep)[|pieces[0]|] == sep;
    }
  }

  /** Printing and parsing gives back a path exactly when each of its components is well
      formed: without a subscript, it has a name, and one not ending in a bracket. */
  lemma ParseShow(cs: seq<Component>)
    requires cs != [] && forall i :: 0 <= i < |cs| ==> Possible(cs[i])
    ensures Parse(Show(cs)) == Ok(cs) <==> forall i :: 0 <= i < |cs| ==> WellFormed(cs[i])
  {
    var parts := ShowParts(cs);
    ShownPartsHaveNoDot(cs);
    SplitJoin(parts, '.');
    JoinEmpty(parts, '.');
    ParsePartsAt(parts, cs);
    forall i | 0 <= i < |cs| ensures ParsePart(parts[i]) == Ok(cs[i]) <==> WellFormed(cs[i]) {
      ParseShowPart(cs[i]);
    }
    if Show(cs) == [] {
      assert parts[0] == [];
      assert !WellFormed(cs[0]);
    }
  }

  lemma ParsedAreSome(path: string)
    requires path != [] && Parse(path).Ok?
    ensures Parse(path).value != []
    ensures forall i :: 0 <= i < |Parse(path).value| ==> Possible(Parse(path).value[i])
  {
    var parts, cs := Split(path, '.'), Parse(path).value;
    JoinSplit(path, '.');
    ParsePartsAt(parts, cs);
    forall i | 0 <= i < |cs| ensures Possible(cs[i]) {
      assert ParsePart(parts[i]) == Ok(cs[i]);
    }
  }

  /** So printing what was parsed, and parsing again, changes nothing, but for subscripts
      which come to NO_INDEX in 32-bit arithmetic on a name which needs one. */
  lemma ParseShowParse(path: string)
    requires path != [] && Parse(path).Ok?
    ensures Parse(Show(Parse(path).value)) == Parse(path)
            <==> forall i :: 0 <= i < |Parse(path).value| ==> WellFormed(Parse(path).value[i])
  {
    ParsedAreSome(path);
    ParseShow(Parse(path).value);
  }

  /** Such a path is accepted, prints as nothing, and parses again to no component at all. */
  lemma NamelessIsLost(digits: string)
    requires AllDigits(digits) && Value(digits) == NO_INDEX
    ensures Parse("[" + digits + "]") == Ok([Component("", NO_INDEX)])
    ensures Parse(Show([Component("", NO_INDEX)])) == Ok([])
  {
    var path := "[" + digits + "]";
    ParseSubscript("", digits);
    assert "" + "[" + digits + "]" == path;
    SplitJoin([path], '.');
    ParsePartsAt([path], [Component("", NO_INDEX)]);
    assert ShowParts([Component("", NO_INDEX)]) == [""];
  }

  /** The path with no component prints as one whose only component is called "/". */
  lemma RootIsNotReadBack()
    ensures Parse("") == Ok([]) && Parse(Show([])) == Ok([Component("/", NO_INDEX)])
  {
    SplitJoin(["/"], '.');
    ParsePartsAt(["/"], [Component("/", NO_INDEX)]);
  }

  /** For instance "[4294967295]". */
  lemma ReadsLargest()
    ensures AllDigits("4294967295") && Value("4294967295") == NO_INDEX
  {
    var s := "4294967295";
    assert AllDigits(s);
    assert Value(s[..0]) == 0;
    assert s[..1][..0] == s[..0] && Value(s[..1]) == 4;
    assert s[..2][..1] == s[..1] && Value(s[..2]) == 42;
    assert s[..3][..2] == s[..2] && Value(s[..3]) == 429;
    assert s[..4][..3] == s[..3] && Value(s[..4]) == 4294;
    assert s[..5][..4] == s[..4] && Value(s[..5]) == 42949;
    assert s[..6][..5] == s[..5] && Value(s[..6]) == 429496;
    assert s[..7][..6] == s[..6] && Value(s[..7]) == 4294967;
    assert s[..8][..7] == s[..7] && Value(s[..8]) == 42949672;
    assert s[..9][..8] == s[..8] && Value(s[..9]) == 429496729;
    assert s[..10] == s && s[..10][..9] == s[..9];
  }

  /** The value of a subscript without wrap-around. */
  function FullValue(s: string): nat
    requires AllDigits(s)
  {
    if s == [] then 0
    else 10 * FullValue(s[..|s| - 1]) + (s[|s| - 1] as int - '0' as int)
  }

  lemma WrapOnce(a: nat, d: nat)
    ensures (10 * (a % MODULUS) + d) % MODULUS == (10 * a + d) % MODULUS
  {
    var q := a / MODULUS;
    assert 10 * a + d == 10 * (a % MODULUS) + d + MODULUS * (10 * q);
    WrapMany(10 * (a % MODULUS) + d, 10 * q);
  }

  lemma {:induction false} WrapMany(x: nat, k: nat)
    ensures (x + MODULUS * k) % MODULUS == x % MODULUS
  {
    if 0 < k {
      WrapMany(x, k - 1);
      assert x + MODULUS * k == (x + MODULUS * (k - 1)) + MODULUS;
    }
  }

  /** The digit loop drops, digit by digit, just what a 32-bit number cannot hold in the end. */
  lemma {:induction false} ValueWraps(s: string)
    requires AllDigits(s)
    ensures Value(s) == FullValue(s) % MODULUS
  {
    if s != [] {
      ValueWraps(s[..|s| - 1]);
      WrapOnce(FullValue(s[..|s| - 1]), s[|s| - 1] as int - '0' as int);
    }
  }

  lemma {:induction false} FullValueDecimal(n: nat)
    ensures FullValue(Decimal(n)) == n
  {
    var s := Decimal(n);
    if n < 10 {
      assert FullValue(s[..0]) == 0;
    } else {
      FullValueDecimal(n / 10);
      assert s[..|s| - 1] == Decimal(n / 10);
    }
  }

  /** So what was printed is read back, for every number, up to 32 bits. */
  lemma ValueDecimal(n: nat)
    ensures Value(Decimal(n)) == n % MODULUS && (n < MODULUS ==> Value(Decimal(n)) == n)
  {
    ValueWraps(Decimal(n));
    FullValueDecimal(n);
  }

  /** A subscript, if the piece has one, is below NO_INDEX. */
  predicate SmallSubscript(part: string) {
    var open := FindLast(part, '[');
    (part != [] && part[|part| - 1] == ']' && open != -1 && AllDigits(part[open + 1..|part| - 1])) ==>
      FullValue(part[open + 1..|part| - 1]) < NO_INDEX
  }

  lemma SmallIsWellFormed(part: string, c: Component)
    requires SmallSubscript(part) && ParsePart(part) == Ok(c)
    ensures WellFormed(c)
  {
    if part[|part| - 1] == ']' {
      ValueWraps(part[FindLast(part, '[') + 1..|part| - 1]);
    }
  }

  lemma SmallSubscriptsRoundTrip(path: string)
    requires path != [] && Parse(path).Ok?
    requires forall i :: 0 <= i < |Split(path, '.')| ==> SmallSubscript(Split(path, '.')[i])
    ensures Parse(Show(Parse(path).value)) == Parse(path)
  {
    var parts, cs := Split(path, '.'), Parse(path).value;
    ParsePartsAt(parts, cs);
    forall i | 0 <= i < |cs| ensures WellFormed(cs[i]) {
      SmallIsWellFormed(parts[i], cs[i]);
    }
    ParseShowParse(path);
  }

  // ---------- What is rejected ----------

  /** The piece is a name with digits in brackets behind it. */
  ghost predicate Subscripted(part: string, name: string, digits: string) {
    AllDigits(digits) && part == name + "[" + digits + "]"
  }

  /** A piece is accepted if and only if it is not empty and, if it ends in a bracket, has
      digits in brackets there, or nothing; and then it means just what it looks like. */
  lemma PartIsExact(part: string)
    ensures ParsePart(part) == Err(EmptyComponent) <==> part == []
    ensures part != [] && part[|part| - 1] != ']' ==> ParsePart(part) == Ok(Component(part, NO_INDEX))
    ensures part != [] && part[|part| - 1] == ']' ==>
              (ParsePart(part).Ok? <==> exists name, digits :: Subscripted(part, name, digits))
    ensures forall name, digits :: Subscripted(part, name, digits) ==>
              ParsePart(part) == Ok(Component(name, FullValue(digits) % MODULUS))
  {
    forall name, digits | Subscripted(part, name, digits)
      ensures ParsePart(part) == Ok(Component(name, FullValue(digits) % MODULUS))
    {
      ParseSubscript(name, digits);
      ValueWraps(digits);
    }
    if part != [] && part[|part| - 1] == ']' && ParsePart(part).Ok? {
      var open := FindLast(part, '[');
      var name, digits := part[..open], part[open + 1..|part| - 1];
      assert part == name + "[" + digits + "]";
      assert Subscripted(part, name, digits);
    }
  }

  /** A path is rejected exactly when one of its pieces is, with the error of the first. */
  lemma PathIsExact(path: string, parts: seq<string>)
    requires path != [] && parts == Split(path, '.')
    ensures Parse(path).Ok? <==> forall i :: 0 <= i < |parts| ==> ParsePart(parts[i]).Ok?
    ensures forall k :: 0 <= k < |parts| && FirstBad(parts, k) ==> Parse(path) == Err(ParsePart(parts[k]).error)
  {
    PartsOk(parts);
    forall k | 0 <= k < |parts| && FirstBad(parts, k)
      ensures Parse(path) == Err(ParsePart(parts[k]).error)
    {
      PartsOk(parts[..k]);
      ErrorStays(parts, k);
    }
  }

  predicate FirstBad(parts: seq<string>, k: nat) {
    k < |parts| && ParsePart(parts[k]).Err? && forall i :: 0 <= i < k ==> ParsePart(parts[i]).Ok?
  }

  lemma {:induction false} PartsOk(parts: seq<string>)
    ensures ParseParts(parts).Ok? <==> forall i :: 0 <= i < |parts| ==> ParsePart(parts[i]).Ok?
  {
    if parts != [] { PartsOk(parts[..|parts| - 1]); }
  }

  // ---------- The program's loops ----------

  ghost predicate Reads(all: seq<string>, done: seq<string>, ok: bool, part: string, rest: seq<string>) {
    all == if ok then done + [part] + rest else done
  }

  lemma ReadOn(all: seq<string>, done: seq<string>, before: seq<string>, ok: bool, part: string, rest: seq<string>)
    requires all == done + before && before == if ok then [part] + rest else []
    ensures Reads(all, done, ok, part, rest)
  {}

  /** The constructor of FieldName, with its exceptions as results. */
  method ParseFieldName(path: string) returns (r: Result<seq<Component>>)
    ensures r == Parse(path)
  {
    if |path| == 0 { return Ok([]); }
    var parts: seq<Component> := [];
    var splitter := new Splitter(path, '.');
    ghost var all := Split(path, '.');
    ghost var done: seq<string> := [];
    var ok, part := splitter.Snip();
    while ok
      invariant splitter.Valid() && fresh(splitter)
      invariant Reads(all, done, ok, part, splitter.rest)
      invariant ParseParts(done) == Ok(parts)
      decreases |all| - |done|, ok
    {
      var c := ParseComponent(part);
      ParseNext(all, done, part, splitter.rest);
      if c.Err? { return Err(c.error); }
      parts := parts + [c.value];
      done := done + [part];
      ghost var rest := splitter.rest;
      ok, part := splitter.Snip();
      ReadOn(all, done, rest, ok, part, splitter.rest);
    }
    return Ok(parts);
  }

  lemma ParseNext(all: seq<string>, done: seq<string>, part: string, rest: seq<string>)
    requires all == done + [part] + rest && ParseParts(done).Ok?
    ensures ParsePart(part).Err? ==> ParseParts(all) == Err(ParsePart(part).error)
    ensures ParsePart(part).Ok? ==> ParseParts(done + [part]) == Ok(ParseParts(done).value + [ParsePart(part).value])
  {
    assert all[..|done|] == done;
    if ParsePart(part).Err? {
      ErrorStays(all, |done|);
    } else {
      assert (done + [part])[..|done|] == done;
    }
  }

  method ParseComponent(part: string) returns (r: Result<Component>)
    ensures r == ParsePart(part)
  {
    if |part| == 0 { return Err(EmptyComponent); }
    if part[|part| - 1] == ']' {
      var open := FindLast(part, '[');
      var ok, index := ParseIndex(part, open);
      if !ok { return Err(BadSubscript); }
      return Ok(Component(part[..open], index));
    }
    return Ok(Component(part, NO_INDEX));
  }

  /** The digit loop, which goes on accumulating 32-bit values until it meets another
      character. */
  method ParseIndex(part: string, open: int) returns (ok: bool, index: nat)
    requires part != [] && part[|part| - 1] == ']' && -1 <= open < |part| - 1
    ensures ok <==> 0 <= open && AllDigits(part[open + 1..|part| - 1])
    ensures ok ==> index == Value(part[open + 1..|part| - 1])
  {
    var n := |part|;
    ok, index := open != -1, 0;
    var i := open + 1;
    while ok && i < n - 1
      invariant open + 1 <= i <= n - 1
      invariant ok ==> 0 <= open && AllDigits(part[open + 1..i]) && index == Value(part[open + 1..i])
      invariant !ok ==> open == -1 || !AllDigits(part[open + 1..n - 1])
      decreases n - 1 - i, ok
    {
      ghost var seen := part[open + 1..i];
      assert part[open + 1..i + 1] == seen + [part[i]];
      if IsDigit(part[i]) {
        index := (10 * index + (part[i] as int - '0' as int)) % MODULUS;
        assert (seen + [part[i]])[..|seen|] == seen;
      } else {
        ok := false;
        assert part[open + 1..n - 1][i - open - 1] == part[i];
      }
      i := i + 1;
    }
  }

  lemma {:induction false} ErrorStays(parts: seq<string>, k: nat)
    requires k < |parts| && ParseParts(parts[..k]).Ok? && ParsePart(parts[k]).Err?
    ensures ParseParts(parts) == Err(ParsePart(parts[k]).error)
    decreases |parts|
  {
    if k < |parts| - 1 {
      var front := parts[..|parts| - 1];
      assert front[..k] == parts[..k];
      ErrorStays(front, k);
    }
  }

  /** show(), collecting what it prints. */
  method ShowFieldName(cs: seq<Component>) returns (out: string)
    ensures out == Show(cs)
  {
    if |cs| == 0 { return "/"; }
    var first := true;
    out := "";
    for i := 0 to |cs|
      invariant first <==> i == 0
      invariant out == Join(ShowParts(cs[..i]), '.')
    {
      assert ShowParts(cs[..i + 1]) == ShowParts(cs[..i]) + [ShowPart(cs[i])];
      JoinSnoc(ShowParts(cs[..i]), ShowPart(cs[i]), '.');
      if !first {
        out := out + ".";
      } else {
        first := false;
      }
      out := out + ShowPart(cs[i]);
    }
    assert cs[..|cs|] == cs;
  }

  lemma {:induction false} JoinSnoc(pieces: seq<string>, piece: string, sep: char)
    ensures Join(pieces + [piece], sep) == if pieces == [] then piece else Join(pieces, sep) + [sep] + piece
  {
    var all := pieces + [piece];
    if pieces == [] {
    } else if |pieces| == 1 {
      assert all[1..] == [piece];
    } else {
      assert all[1..] == pieces[1..] + [piece];
      JoinSnoc(pieces[1..], piece, sep);
    }
  }
}
