// The JSON structure scanner as functions of the text and the cursor, and the
// nesting pre-pass that runs before it.
module JsonScan {
  import opened Bytes

  const QUOTE: u8 := 0x22
  const BACKSLASH: u8 := 0x5C
  const OPEN_BRACE: u8 := 0x7B
  const CLOSE_BRACE: u8 := 0x7D
  const OPEN_BRACKET: u8 := 0x5B
  const CLOSE_BRACKET: u8 := 0x5D
  const COMMA: u8 := 0x2C
  const COLON: u8 := 0x3A
  const MINUS: u8 := 0x2D
  const PLUS: u8 := 0x2B
  const DOT: u8 := 0x2E
  const ZERO: u8 := 0x30
  const NINE: u8 := 0x39
  const UPPER_E: u8 := 0x45
  const LOWER_E: u8 := 0x65
  const LOWER_U: u8 := 0x75

  const TRUE_WORD: seq<u8> := [0x74, 0x72, 0x75, 0x65]
  const FALSE_WORD: seq<u8> := [0x66, 0x61, 0x6C, 0x73, 0x65]
  const NULL_WORD: seq<u8> := [0x6E, 0x75, 0x6C, 0x6C]

  const JSON_DOCUMENT_MAX_DEPTH: nat := 32

  type Text = seq<u8>

  // The byte under the cursor, or NUL at the end.
  function At(t: Text, k: nat): u8 {
    if k < |t| then t[k] else 0
  }

  predicate IsSpace(c: u8) {
    c == 0x20 || c == 0x0A || c == 0x0D || c == 0x09
  }

  predicate IsDigit(c: u8) {
    ZERO <= c <= NINE
  }

  predicate IsHex(c: u8) {
    IsDigit(c) || 0x61 <= c <= 0x66 || 0x41 <= c <= 0x46
  }

  // Escapes of two characters.
  predicate IsShortEscape(c: u8) {
    c == QUOTE || c == BACKSLASH || c == 0x2F || c == 0x62 || c == 0x66 || c == 0x6E || c == 0x72 || c == 0x74
  }

  function SkipSpace(t: Text, k: nat): (e: nat)
    requires k <= |t|
    ensures k <= e <= |t|
    decreases |t| - k
  {
    if k < |t| && IsSpace(t[k]) then SkipSpace(t, k + 1) else k
  }

  function SkipDigits(t: Text, k: nat): (e: nat)
    requires k <= |t|
    ensures k <= e <= |t|
    decreases |t| - k
  {
    if IsDigit(At(t, k)) then SkipDigits(t, k + 1) else k
  }

  // What a scan of one token leaves behind.
  datatype Token = Token(ok: bool, cursor: nat)

  // The rest of a string after its opening quote.
  function ScanChars(t: Text, k: nat): (r: Token)
    requires k <= |t|
    ensures k <= r.cursor <= |t| && (r.ok ==> k < r.cursor)
    decreases |t| - k
  {
    if k == |t| then Token(false, k)
    else if t[k] == QUOTE then Token(true, k + 1)
    else if t[k] < 0x20 then Token(false, k + 1)
    else if t[k] != BACKSLASH then ScanChars(t, k + 1)
    else if k + 1 == |t| then Token(false, k + 1)
    else if IsShortEscape(t[k + 1]) then ScanChars(t, k + 2)
    else if t[k + 1] != LOWER_U || |t| - (k + 2) < 4 then Token(false, k + 2)
    else
      var h := HexEnd(t, k + 2, 4);
      if h.ok then ScanChars(t, k + 6) else h
  }

  // Reads n hexadecimal digits; a wrong one is consumed too.
  function HexEnd(t: Text, k: nat, n: nat): (r: Token)
    requires k + n <= |t|
    ensures k <= r.cursor <= k + n && (r.ok <==> forall j :: k <= j < k + n ==> IsHex(t[j]))
    ensures r.ok ==> r.cursor == k + n
    decreases n
  {
    if n == 0 then Token(true, k)
    else if !IsHex(t[k]) then Token(false, k + 1)
    else HexEnd(t, k + 1, n - 1)
  }

  function ScanString(t: Text, k: nat): (r: Token)
    requires k <= |t|
    ensures k <= r.cursor <= |t| && (r.ok ==> k < r.cursor)
  {
    if At(t, k) != QUOTE then Token(false, k) else ScanChars(t, k + 1)
  }

  function ScanLiteral(t: Text, k: nat, word: seq<u8>): (r: Token)
    requires k <= |t| && (forall j :: 0 <= j < |word| ==> word[j] != 0)
    ensures k <= r.cursor <= |t| && (r.ok ==> r.cursor == k + |word|)
    decreases |word|
  {
    if word == [] then Token(true, k)
    else if At(t, k) != word[0] then Token(false, k)
    else ScanLiteral(t, k + 1, word[1..])
  }

  // At least one digit.
  function ScanDigits(t: Text, k: nat): (r: Token)
    requires k <= |t|
    ensures k <= r.cursor <= |t| && (r.ok ==> k < r.cursor)
  {
    if IsDigit(At(t, k)) then Token(true, SkipDigits(t, k)) else Token(false, k)
  }

  function SignEnd(t: Text, k: nat): (e: nat)
    requires k <= |t|
    ensures k <= e <= |t|
  {
    if At(t, k) == MINUS then k + 1 else k
  }

  function ScanWhole(t: Text, k: nat): (r: Token)
    requires k <= |t|
    ensures k <= r.cursor <= |t| && (r.ok ==> k < r.cursor)
  {
    if At(t, k) == ZERO then Token(true, k + 1) else ScanDigits(t, k)
  }

  function ScanFraction(t: Text, k: nat): (r: Token)
    requires k <= |t|
    ensures k <= r.cursor <= |t|
  {
    if At(t, k) == DOT then ScanDigits(t, k + 1) else Token(true, k)
  }

  predicate IsExponentMark(c: u8) {
    c == LOWER_E || c == UPPER_E
  }

  function ExponentDigits(t: Text, k: nat): (e: nat)
    requires k < |t|
    ensures k < e <= |t|
  {
    if At(t, k + 1) == PLUS || At(t, k + 1) == MINUS then k + 2 else k + 1
  }

  function ScanExponent(t: Text, k: nat): (r: Token)
    requires k <= |t|
    ensures k <= r.cursor <= |t|
  {
    if IsExponentMark(At(t, k)) then ScanDigits(t, ExponentDigits(t, k)) else Token(true, k)
  }

  function ScanNumber(t: Text, k: nat): (r: Token)
    requires k <= |t|
    ensures k <= r.cursor <= |t| && (r.ok ==> k < r.cursor)
  {
    var whole := ScanWhole(t, SignEnd(t, k));
    if !whole.ok then whole
    else
      var fraction := ScanFraction(t, whole.cursor);
      if !fraction.ok then fraction else ScanExponent(t, fraction.cursor)
  }

  // ----- values, objects and arrays -----

  // `deepest` is the deepest object or array frame entered so far.
  datatype Scan = Scan(ok: bool, cursor: nat, values: nat, deepest: nat)

  function Max(a: nat, b: nat): nat {
    if a < b then b else a
  }

  function ScanScalar(t: Text, k: nat): (r: Token)
    requires k <= |t|
    ensures k <= r.cursor <= |t| && (r.ok ==> k < r.cursor)
  {
    if At(t, k) == QUOTE then ScanString(t, k)
    else if At(t, k) == TRUE_WORD[0] then ScanLiteral(t, k, TRUE_WORD)
    else if At(t, k) == FALSE_WORD[0] then ScanLiteral(t, k, FALSE_WORD)
    else if At(t, k) == NULL_WORD[0] then ScanLiteral(t, k, NULL_WORD)
    else ScanNumber(t, k)
  }

  function ScanValue(t: Text, max: nat, k: nat, values: nat, depth: nat, deepest: nat): (r: Scan)
    requires k <= |t|
    ensures k <= r.cursor <= |t| && (r.ok ==> k < r.cursor)
    decreases |t| - k, 3
  {
    var s := SkipSpace(t, k);
    if values + 1 > max then Scan(false, s, values + 1, deepest)
    else if At(t, s) == OPEN_BRACE then ScanObject(t, max, s, values + 1, depth + 1, deepest)
    else if At(t, s) == OPEN_BRACKET then ScanArray(t, max, s, values + 1, depth + 1, deepest)
    else
      var token := ScanScalar(t, s);
      Scan(token.ok, token.cursor, values + 1, deepest)
  }

  function ScanObject(t: Text, max: nat, k: nat, values: nat, depth: nat, deepest: nat): (r: Scan)
    requires k < |t|
    ensures k <= r.cursor <= |t| && (r.ok ==> k < r.cursor)
    decreases |t| - k, 2
  {
    var s := SkipSpace(t, k + 1);
    if At(t, s) == CLOSE_BRACE then Scan(true, s + 1, values, Max(deepest, depth))
    else ScanMembers(t, max, s, values, depth, Max(deepest, depth))
  }

  function ScanMembers(t: Text, max: nat, k: nat, values: nat, depth: nat, deepest: nat): (r: Scan)
    requires k <= |t|
    ensures k <= r.cursor <= |t| && (r.ok ==> k < r.cursor)
    decreases |t| - k, 4
  {
    var key := ScanString(t, k);
    if !key.ok then Scan(false, key.cursor, values, deepest)
    else
      var colon := SkipSpace(t, key.cursor);
      if At(t, colon) != COLON then Scan(false, colon, values, deepest)
      else
        var v := ScanValue(t, max, colon + 1, values, depth, deepest);
        if !v.ok then v
        else
          var s := SkipSpace(t, v.cursor);
          if At(t, s) == CLOSE_BRACE then Scan(true, s + 1, v.values, v.deepest)
          else if At(t, s) != COMMA then Scan(false, s, v.values, v.deepest)
          else ScanMembers(t, max, SkipSpace(t, s + 1), v.values, depth, v.deepest)
  }

  function ScanArray(t: Text, max: nat, k: nat, values: nat, depth: nat, deepest: nat): (r: Scan)
    requires k < |t|
    ensures k <= r.cursor <= |t| && (r.ok ==> k < r.cursor)
    decreases |t| - k, 2
  {
    var s := SkipSpace(t, k + 1);
    if At(t, s) == CLOSE_BRACKET then Scan(true, s + 1, values, Max(deepest, depth))
    else ScanItems(t, max, s, values, depth, Max(deepest, depth))
  }

  function ScanItems(t: Text, max: nat, k: nat, values: nat, depth: nat, deepest: nat): (r: Scan)
    requires k <= |t|
    ensures k <= r.cursor <= |t| && (r.ok ==> k < r.cursor)
    decreases |t| - k, 4
  {
    var v := ScanValue(t, max, k, values, depth, deepest);
    if !v.ok then v
    else
      var s := SkipSpace(t, v.cursor);
      if At(t, s) == CLOSE_BRACKET then Scan(true, s + 1, v.values, v.deepest)
      else if At(t, s) != COMMA then Scan(false, s, v.values, v.deepest)
      else ScanItems(t, max, SkipSpace(t, s + 1), v.values, depth, v.deepest)
  }

  function ScanDocument(t: Text, max: nat): (r: Scan)
    ensures r.cursor <= |t|
  {
    var v := ScanValue(t, max, 0, 0, 0, 0);
    if !v.ok then v
    else
      var s := SkipSpace(t, v.cursor);
      Scan(s == |t|, s, v.values, v.deepest)
  }

  // ----- the nesting pre-pass -----

  datatype Nesting = Nesting(depth: nat, inString: bool, escaped: bool)

  function NestingStep(n: Nesting, c: u8): Nesting {
    if n.inString then
      if n.escaped then n.(escaped := false)
      else if c == BACKSLASH then n.(escaped := true)
      else if c == QUOTE then n.(inString := false)
      else n
    else if c == QUOTE then n.(inString := true)
    else if c == OPEN_BRACE || c == OPEN_BRACKET then n.(depth := n.depth + 1)
    else if (c == CLOSE_BRACE || c == CLOSE_BRACKET) && n.depth > 0 then n.(depth := n.depth - 1)
    else n
  }

  function NestingAt(t: Text, k: nat): Nesting
    requires k <= |t|
  {
    if k == 0 then Nesting(0, false, false) else NestingStep(NestingAt(t, k - 1), t[k - 1])
  }

  predicate NestingWithinLimit(t: Text) {
    forall k :: 0 <= k <= |t| ==> NestingAt(t, k).depth <= JSON_DOCUMENT_MAX_DEPTH
  }
}
