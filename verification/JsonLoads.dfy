/** `json.loads`: a recursive-descent reader over the rest of the text, strict as Python's default. */
module JsonLoads {
  import opened PyText
  import opened Json

  datatype Parsed<T> = Fail | Ok(value: T, rest: Text)

  // --- strings ------------------------------------------------------------

  /** One written character of a string literal. */
  datatype Item =
    | Plain(c: CodePoint)
    | Escaped(c: CodePoint)
    | Unicode(hex: Text)

  predicate IsSimpleEscape(c: CodePoint) {
    c == QUOTE || c == BACKSLASH || c == 0x2F || c == 0x62 || c == 0x66 || c == 0x6E || c == 0x72 || c == 0x74
  }

  /** The character a simple escape stands for; any other character stands for itself. */
  function Unescape(c: CodePoint): CodePoint {
    if c == 0x62 then 0x08
    else if c == 0x66 then 0x0C
    else if c == 0x6E then 0x0A
    else if c == 0x72 then 0x0D
    else if c == 0x74 then 0x09
    else c
  }

  predicate LegalItem(item: Item) {
    match item
    case Plain(c) => c >= 0x20 && c != QUOTE && c != BACKSLASH
    case Escaped(c) => IsSimpleEscape(c)
    case Unicode(hex) => IsHex4(hex)
  }

  type StringItem = i: Item | LegalItem(i) witness Plain(0x20)

  function Unit(item: StringItem): CodePoint {
    match item
    case Plain(c) => c
    case Escaped(c) => Unescape(c)
    case Unicode(hex) => Hex4(hex)
  }

  function Units(items: seq<StringItem>): (t: Text)
    ensures |t| == |items|
  {
    if items == [] then [] else [Unit(items[0])] + Units(items[1..])
  }

  predicate HighEscape(item: StringItem) { item.Unicode? && 0xD800 <= Hex4(item.hex) <= 0xDBFF }

  predicate LowEscape(item: StringItem) { item.Unicode? && 0xDC00 <= Hex4(item.hex) <= 0xDFFF }

  predicate PairAt(items: seq<StringItem>, i: nat) {
    i + 1 < |items| && HighEscape(items[i]) && LowEscape(items[i + 1])
  }

  /** The string value: an escaped high surrogate right before an escaped low one is one code point. */
  function StringValue(items: seq<StringItem>): Text {
    if items == [] then []
    else if PairAt(items, 0) then
      [0x1_0000 + (Hex4(items[0].hex) - 0xD800) * 0x400 + (Hex4(items[1].hex) - 0xDC00)] + StringValue(items[2..])
    else [Unit(items[0])] + StringValue(items[1..])
  }

  /** The items of a string literal whose opening quote has been read. */
  function ScanItems(t: Text): (r: Parsed<seq<StringItem>>)
    ensures r.Ok? ==> |r.rest| < |t|
  {
    if t == [] then Fail
    else if t[0] == QUOTE then Ok([], t[1..])
    else if t[0] == BACKSLASH then
      if |t| >= 2 && IsSimpleEscape(t[1]) then Cons(Escaped(t[1]), ScanItems(t[2..]))
      else if |t| >= 6 && t[1] == LOWER_U && IsHex4(t[2..6]) then Cons(Unicode(t[2..6]), ScanItems(t[6..]))
      else Fail
    else if t[0] < 0x20 then Fail
    else Cons(Plain(t[0]), ScanItems(t[1..]))
  }

  function Cons(item: StringItem, tail: Parsed<seq<StringItem>>): Parsed<seq<StringItem>> {
    match tail
    case Fail => Fail
    case Ok(items, rest) => Ok([item] + items, rest)
  }

  // --- scalars ------------------------------------------------------------

  predicate IsWs(c: CodePoint) { c == 0x20 || c == 0x09 || c == 0x0A || c == 0x0D }

  function SkipWs(t: Text): (r: Text)
    ensures |r| <= |t|
    ensures r == [] || !IsWs(r[0])
  {
    if t != [] && IsWs(t[0]) then SkipWs(t[1..]) else t
  }

  function NumberRun(t: Text): (n: nat)
    ensures n <= |t|
    ensures forall i :: 0 <= i < n ==> NumberChar(t[i])
    ensures n < |t| ==> !NumberChar(t[n])
  {
    if t == [] || !NumberChar(t[0]) then 0 else 1 + NumberRun(t[1..])
  }

  function ParseWord(t: Text, word: Text, value: Json): (r: Parsed<Json>)
    requires word != []
    ensures r.Ok? ==> |r.rest| < |t|
  {
    if HasPrefix(t, word) then Ok(value, t[|word|..]) else Fail
  }

  function ParseScalar(t: Text): (r: Parsed<Json>)
    ensures r.Ok? ==> |r.rest| < |t|
  {
    var n := NumberRun(t);
    if IsNumber(t[..n]) then Ok(Num(t[..n]), t[n..])
    else if t == [] then Fail
    else if t[0] == 0x6E then ParseWord(t, Lit("null"), Null)
    else if t[0] == 0x74 then ParseWord(t, Lit("true"), Bool(true))
    else if t[0] == 0x66 then ParseWord(t, Lit("false"), Bool(false))
    else if t[0] == 0x4E then ParseWord(t, Lit("NaN"), Num(Lit("NaN")))
    else if t[0] == 0x49 then ParseWord(t, Lit("Infinity"), Num(Lit("Infinity")))
    else ParseWord(t, Lit("-Infinity"), Num(Lit("-Infinity")))
  }

  // --- values -------------------------------------------------------------

  function ParseValue(t: Text): (r: Parsed<Json>)
    ensures r.Ok? ==> |r.rest| < |t|
    decreases |t|, 0
  {
    if t == [] then Fail
    else if t[0] == QUOTE then
      match ScanItems(t[1..])
      case Fail => Fail
      case Ok(items, rest) => Ok(Str(StringValue(items)), rest)
    else if t[0] == LBRACE then
      var t1 := SkipWs(t[1..]);
      if t1 != [] && t1[0] == RBRACE then Ok(Obj([]), t1[1..])
      else
        match ParseMembers(t1)
        case Fail => Fail
        case Ok(pairs, rest) => Ok(Obj(Dict(pairs)), rest)
    else if t[0] == LBRACKET then
      var t1 := SkipWs(t[1..]);
      if t1 != [] && t1[0] == RBRACKET then Ok(Arr([]), t1[1..])
      else
        match ParseElems(t1)
        case Fail => Fail
        case Ok(elems, rest) => Ok(Arr(elems), rest)
    else ParseScalar(t)
  }

  /** One or more values up to the closing bracket. */
  function ParseElems(t: Text): (r: Parsed<seq<Json>>)
    ensures r.Ok? ==> |r.rest| < |t|
    decreases |t|, 1
  {
    match ParseValue(t)
    case Fail => Fail
    case Ok(v, rest) =>
      var t1 := SkipWs(rest);
      if t1 == [] then Fail
      else if t1[0] == RBRACKET then Ok([v], t1[1..])
      else if t1[0] != COMMA then Fail
      else
        match ParseElems(SkipWs(t1[1..]))
        case Fail => Fail
        case Ok(elems, rest') => Ok([v] + elems, rest')
  }

  /** One or more key-value pairs up to the closing brace. */
  function ParseMembers(t: Text): (r: Parsed<seq<Member>>)
    ensures r.Ok? ==> |r.rest| < |t|
    decreases |t|, 1
  {
    match ParseMember(t)
    case Fail => Fail
    case Ok(m, rest) =>
      var t1 := SkipWs(rest);
      if t1 == [] then Fail
      else if t1[0] == RBRACE then Ok([m], t1[1..])
      else if t1[0] != COMMA then Fail
      else
        match ParseMembers(SkipWs(t1[1..]))
        case Fail => Fail
        case Ok(members, rest') => Ok([m] + members, rest')
  }

  function ParseMember(t: Text): (r: Parsed<Member>)
    ensures r.Ok? ==> |r.rest| < |t|
    decreases |t|, 0
  {
    if t == [] || t[0] != QUOTE then Fail
    else
      match ScanItems(t[1..])
      case Fail => Fail
      case Ok(items, rest) =>
        var t1 := SkipWs(rest);
        if t1 == [] || t1[0] != COLON then Fail
        else
          match ParseValue(SkipWs(t1[1..]))
          case Fail => Fail
          case Ok(v, rest') => Ok(Member(StringValue(items), v), rest')
  }

  /** `json.loads(t)`; `Fail` is `JSONDecodeError`. */
  function Loads(t: Text): Parsed<Json> {
    match ParseValue(SkipWs(t))
    case Fail => Fail
    case Ok(v, rest) => if SkipWs(rest) == [] then Ok(v, []) else Fail
  }
}
