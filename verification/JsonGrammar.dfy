// The JSON grammar of RFC 8259 (section 2, with numbers of section 6 and
// strings of section 7, UTF-8 validity aside) as derivations over a text, and
// the proof that the scanner accepts exactly its documents.
module JsonGrammar {
  import opened Bytes
  import opened JsonScan

  // A derivation. Positions are indexes into the text: each node records where
  // its parts end, so that the text between them can be checked.
  datatype Tree =
    | Word(word: seq<u8>)
    | Number(signEnd: nat, wholeEnd: nat, fractionEnd: nat, exponentEnd: nat)
    | String(stringEnd: nat)
    | EmptyArray(close: nat)
    | Array(first: nat, items: Items)
    | EmptyObject(close: nat)
    | Object(first: nat, members: Members)

  datatype Items =
    | LastItem(value: Tree, close: nat)
    | MoreItems(value: Tree, comma: nat, next: nat, rest: Items)

  datatype Members =
    | LastMember(keyEnd: nat, colon: nat, start: nat, value: Tree, close: nat)
    | MoreMembers(keyEnd: nat, colon: nat, start: nat, value: Tree, comma: nat, next: nat, rest: Members)

  function End(i: nat, v: Tree): nat {
    match v
    case Word(word) => i + |word|
    case Number(_, _, _, exponentEnd) => exponentEnd
    case String(stringEnd) => stringEnd
    case EmptyArray(close) => close + 1
    case Array(_, items) => ItemsEnd(items)
    case EmptyObject(close) => close + 1
    case Object(_, members) => MembersEnd(members)
  }

  function ItemsEnd(items: Items): nat {
    match items
    case LastItem(_, close) => close + 1
    case MoreItems(_, _, _, rest) => ItemsEnd(rest)
  }

  function MembersEnd(members: Members): nat {
    match members
    case LastMember(_, _, _, _, close) => close + 1
    case MoreMembers(_, _, _, _, _, _, rest) => MembersEnd(rest)
  }

  // Values of a derivation; member names are not values.
  function Count(v: Tree): (n: nat)
    ensures n > 0
  {
    match v
    case Array(_, items) => 1 + CountItems(items)
    case Object(_, members) => 1 + CountMembers(members)
    case _ => 1
  }

  function CountItems(items: Items): (n: nat)
    ensures n > 0
  {
    match items
    case LastItem(value, _) => Count(value)
    case MoreItems(value, _, _, rest) => Count(value) + CountItems(rest)
  }

  function CountMembers(members: Members): (n: nat)
    ensures n > 0
  {
    match members
    case LastMember(_, _, _, value, _) => Count(value)
    case MoreMembers(_, _, _, value, _, _, rest) => Count(value) + CountMembers(rest)
  }

  // The character a byte below 128 stands for is one of those listed.
  predicate OneOf(c: u8, chars: string) {
    exists i :: 0 <= i < |chars| && chars[i] as int == c
  }

  // The terminals are those of RFC 8259: white space and structural characters
  // (section 2), numbers (section 6) and strings (section 7).
  lemma WhiteSpaceOfTheStandard(c: u8)
    ensures IsSpace(c) <==> OneOf(c, " \t\n\r")
  {
    var chars := " \t\n\r";
    assert chars[0] == ' ' && chars[1] == '\t' && chars[2] == '\n' && chars[3] == '\r';
  }

  lemma DigitsOfTheStandard(c: u8)
    ensures IsDigit(c) <==> '0' as int <= c <= '9' as int
    ensures IsHex(c) <==>
      || '0' as int <= c <= '9' as int || 'a' as int <= c <= 'f' as int || 'A' as int <= c <= 'F' as int
    ensures IsExponentMark(c) <==> OneOf(c, "eE")
  {
    var marks := "eE";
    assert marks[0] == 'e' && marks[1] == 'E';
  }

  lemma EscapesOfTheStandard(c: u8)
    ensures IsShortEscape(c) <==> OneOf(c, "\"\\/bfnrt")
  {
    var chars := "\"\\/bfnrt";
    assert chars[0] == '\"' && chars[1] == '\\' && chars[2] == '/' && chars[3] == 'b';
    assert chars[4] == 'f' && chars[5] == 'n' && chars[6] == 'r' && chars[7] == 't';
  }

  predicate Spells(word: seq<u8>, text: string) {
    |word| == |text| && forall i :: 0 <= i < |word| ==> word[i] == text[i] as int
  }

  lemma WordsOfTheStandard()
    ensures Spells(TRUE_WORD, "true") && Spells(FALSE_WORD, "false") && Spells(NULL_WORD, "null")
    ensures Spells([OPEN_BRACKET, CLOSE_BRACKET, OPEN_BRACE, CLOSE_BRACE, COLON, COMMA], "[]{}:,")
    ensures Spells([QUOTE, BACKSLASH, LOWER_U, MINUS, PLUS, DOT, ZERO], "\"\\u-+.0")
  {
  }

  // An exponent's digits follow its mark and at most one sign.
  lemma ExponentOfTheStandard(t: Text, k: nat)
    requires k < |t|
    ensures ExponentDigits(t, k) == if k + 1 < |t| && OneOf(t[k + 1], "+-") then k + 2 else k + 1
  {
    var signs := "+-";
    assert signs[0] == '+' && signs[1] == '-';
  }

  // ----- terminals -----

  ghost predicate Spaces(t: Text, a: nat, b: nat) {
    a <= b <= |t| && forall k :: a <= k < b ==> IsSpace(t[k])
  }

  ghost predicate Digits(t: Text, a: nat, b: nat) {
    a < b <= |t| && forall k :: a <= k < b ==> IsDigit(t[k])
  }

  // The characters and the closing quote of a string.
  ghost predicate Chars(t: Text, k: nat, end: nat)
    decreases |t| - k
  {
    && k < end <= |t|
    && if t[k] == QUOTE then end == k + 1
       else if t[k] == BACKSLASH then
         && k + 1 < end
         && if IsShortEscape(t[k + 1]) then Chars(t, k + 2, end)
            else && t[k + 1] == LOWER_U && k + 6 <= |t|
                 && (forall j :: k + 2 <= j < k + 6 ==> IsHex(t[j])) && Chars(t, k + 6, end)
       else t[k] >= 0x20 && Chars(t, k + 1, end)
  }

  ghost predicate StringAt(t: Text, i: nat, end: nat) {
    At(t, i) == QUOTE && Chars(t, i + 1, end)
  }

  ghost predicate WordAt(t: Text, i: nat, word: seq<u8>) {
    && (word == TRUE_WORD || word == FALSE_WORD || word == NULL_WORD)
    && i + |word| <= |t| && forall j :: 0 <= j < |word| ==> t[i + j] == word[j]
  }

  ghost predicate WholeAt(t: Text, a: nat, b: nat) {
    (At(t, a) == ZERO && b == a + 1) || (At(t, a) != ZERO && Digits(t, a, b))
  }

  ghost predicate FractionAt(t: Text, a: nat, b: nat) {
    a == b || (At(t, a) == DOT && Digits(t, a + 1, b))
  }

  ghost predicate ExponentAt(t: Text, a: nat, b: nat) {
    a == b || (a < |t| && IsExponentMark(t[a]) && Digits(t, ExponentDigits(t, a), b))
  }

  ghost predicate NumberAt(t: Text, i: nat, v: Tree)
    requires v.Number?
  {
    && (v.signEnd == i || (v.signEnd == i + 1 && At(t, i) == MINUS))
    && WholeAt(t, v.signEnd, v.wholeEnd) && FractionAt(t, v.wholeEnd, v.fractionEnd)
    && ExponentAt(t, v.fractionEnd, v.exponentEnd)
  }

  // ----- the derivation of a value that starts at i -----

  ghost predicate Derives(t: Text, i: nat, v: Tree)
    decreases v
  {
    && i < End(i, v) <= |t|
    && match v
       case Word(word) => WordAt(t, i, word)
       case Number(_, _, _, _) => NumberAt(t, i, v)
       case String(stringEnd) => StringAt(t, i, stringEnd)
       case EmptyArray(close) =>
         At(t, i) == OPEN_BRACKET && Spaces(t, i + 1, close) && At(t, close) == CLOSE_BRACKET
       case Array(first, items) =>
         At(t, i) == OPEN_BRACKET && Spaces(t, i + 1, first) && DerivesItems(t, first, items)
       case EmptyObject(close) =>
         At(t, i) == OPEN_BRACE && Spaces(t, i + 1, close) && At(t, close) == CLOSE_BRACE
       case Object(first, members) =>
         At(t, i) == OPEN_BRACE && Spaces(t, i + 1, first) && DerivesMembers(t, first, members)
  }

  ghost predicate DerivesItems(t: Text, i: nat, items: Items)
    decreases items
  {
    && Derives(t, i, items.value)
    && match items
       case LastItem(value, close) => Spaces(t, End(i, value), close) && At(t, close) == CLOSE_BRACKET
       case MoreItems(value, comma, next, rest) =>
         && Spaces(t, End(i, value), comma) && At(t, comma) == COMMA
         && Spaces(t, comma + 1, next) && DerivesItems(t, next, rest)
  }

  ghost predicate DerivesMembers(t: Text, i: nat, members: Members)
    decreases members
  {
    && StringAt(t, i, members.keyEnd) && Spaces(t, members.keyEnd, members.colon) && At(t, members.colon) == COLON
    && Spaces(t, members.colon + 1, members.start) && Derives(t, members.start, members.value)
    && match members
       case LastMember(_, _, start, value, close) =>
         Spaces(t, End(start, value), close) && At(t, close) == CLOSE_BRACE
       case MoreMembers(_, _, start, value, comma, next, rest) =>
         && Spaces(t, End(start, value), comma) && At(t, comma) == COMMA
         && Spaces(t, comma + 1, next) && DerivesMembers(t, next, rest)
  }

  // JSON-text = ws value ws.
  ghost predicate Document(t: Text, start: nat, v: Tree) {
    Spaces(t, 0, start) && Derives(t, start, v) && Spaces(t, End(start, v), |t|)
  }

  // ----- tokens -----

  lemma {:induction false} SkipSpaceIs(t: Text, k: nat)
    requires k <= |t|
    ensures Spaces(t, k, SkipSpace(t, k)) && !IsSpace(At(t, SkipSpace(t, k)))
    decreases |t| - k
  {
    if k < |t| && IsSpace(t[k]) {
      SkipSpaceIs(t, k + 1);
    }
  }

  lemma {:induction false} SkipSpaceReaches(t: Text, a: nat, b: nat)
    requires Spaces(t, a, b) && !IsSpace(At(t, b))
    ensures SkipSpace(t, a) == b
    decreases b - a
  {
    if a < b {
      SkipSpaceReaches(t, a + 1, b);
    }
  }

  lemma {:induction false} SkipDigitsIs(t: Text, k: nat)
    requires k <= |t|
    ensures forall j :: k <= j < SkipDigits(t, k) ==> IsDigit(t[j])
    ensures !IsDigit(At(t, SkipDigits(t, k)))
    decreases |t| - k
  {
    if IsDigit(At(t, k)) {
      SkipDigitsIs(t, k + 1);
    }
  }

  lemma {:induction false} SkipDigitsReaches(t: Text, a: nat, b: nat)
    requires a <= b <= |t| && (forall j :: a <= j < b ==> IsDigit(t[j])) && !IsDigit(At(t, b))
    ensures SkipDigits(t, a) == b
    decreases b - a
  {
    if a < b {
      SkipDigitsReaches(t, a + 1, b);
    }
  }

  lemma {:induction false} CharsAreScanned(t: Text, k: nat, end: nat)
    requires k <= |t|
    ensures Chars(t, k, end) <==> ScanChars(t, k) == Token(true, end)
    decreases |t| - k
  {
    if k < |t| && t[k] != QUOTE {
      if t[k] != BACKSLASH {
        CharsAreScanned(t, k + 1, end);
      } else if k + 1 < |t| {
        if IsShortEscape(t[k + 1]) {
          CharsAreScanned(t, k + 2, end);
        } else if k + 6 <= |t| {
          CharsAreScanned(t, k + 6, end);
        }
      }
    }
  }

  lemma StringsAreScanned(t: Text, k: nat, end: nat)
    requires k <= |t|
    ensures StringAt(t, k, end) <==> ScanString(t, k) == Token(true, end)
  {
    if At(t, k) == QUOTE {
      CharsAreScanned(t, k + 1, end);
    }
  }

  lemma {:induction false} LiteralsAreScanned(t: Text, k: nat, word: seq<u8>)
    requires k <= |t| && forall j :: 0 <= j < |word| ==> word[j] != 0
    ensures ScanLiteral(t, k, word).ok <==> k + |word| <= |t| && forall j :: 0 <= j < |word| ==> t[k + j] == word[j]
    decreases |word|
  {
    if word != [] && At(t, k) == word[0] {
      LiteralsAreScanned(t, k + 1, word[1..]);
      if ScanLiteral(t, k, word).ok {
        forall j | 0 <= j < |word|
          ensures t[k + j] == word[j]
        {
          if j > 0 {
            assert t[k + 1 + (j - 1)] == word[1..][j - 1];
          }
        }
      } else if k + |word| <= |t| {
        var j :| 0 <= j < |word[1..]| && t[k + 1 + j] != word[1..][j];
        assert t[k + (j + 1)] != word[j + 1];
      }
    }
  }

  // ----- numbers: the scanner munches all it can -----

  // What may follow a value in a document is never part of a number.
  predicate EndsNumber(c: u8) {
    !IsDigit(c) && c != DOT && !IsExponentMark(c)
  }

  lemma NumberSound(t: Text, k: nat) returns (v: Tree)
    requires k <= |t| && ScanNumber(t, k).ok
    ensures v.Number? && NumberAt(t, k, v) && v.exponentEnd == ScanNumber(t, k).cursor
  {
    var a := SignEnd(t, k);
    var b := ScanWhole(t, a).cursor;
    var c := ScanFraction(t, b).cursor;
    v := Number(a, b, c, ScanExponent(t, c).cursor);
    SkipDigitsIs(t, a);
    if At(t, b) == DOT {
      SkipDigitsIs(t, b + 1);
    }
    if IsExponentMark(At(t, c)) {
      SkipDigitsIs(t, ExponentDigits(t, c));
    }
  }

  lemma NumberComplete(t: Text, k: nat, v: Tree)
    requires v.Number? && k < v.exponentEnd <= |t| && NumberAt(t, k, v) && EndsNumber(At(t, v.exponentEnd))
    ensures ScanNumber(t, k) == Token(true, v.exponentEnd)
  {
    hide SkipDigits;
    if At(t, v.signEnd) != ZERO {
      SkipDigitsReaches(t, v.signEnd, v.wholeEnd);
    }
    if v.wholeEnd < v.fractionEnd {
      SkipDigitsReaches(t, v.wholeEnd + 1, v.fractionEnd);
    }
    if v.fractionEnd < v.exponentEnd {
      SkipDigitsReaches(t, ExponentDigits(t, v.fractionEnd), v.exponentEnd);
    }
  }
}
