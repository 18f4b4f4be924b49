// The scanner as it moves its cursor, and the checks made before a document
// is handed to the JSON library.
module JsonScanner {
  import opened Bytes
  import opened JsonScan
  import opened JsonGrammar
  import opened JsonProofs
  import opened JsonDepth
  import opened JsonNesting

  class JsonStructureScanner {
    const body: seq<u8>
    const maxValues: nat
    var cursor: nat
    var values: nat
    ghost var deepest: nat

    ghost predicate Sound()
      reads this
    {
      cursor <= |body|
    }

    ghost function Result(ok: bool): Scan
      reads this
    {
      Scan(ok, cursor, values, deepest)
    }

    constructor (body: seq<u8>, maxValues: nat)
      ensures Sound() && this.body == body && this.maxValues == maxValues
      ensures Result(true) == Scan(true, 0, 0, 0)
    {
      this.body, this.maxValues := body, maxValues;
      cursor, values, deepest := 0, 0, 0;
    }

    function Current(): u8
      reads this
    {
      At(body, cursor)
    }

    method SkipWhitespace()
      requires Sound()
      modifies this`cursor
      ensures Sound() && cursor == SkipSpace(body, old(cursor))
    {
      ghost var end := SkipSpace(body, cursor);
      while cursor < |body| && IsSpace(body[cursor])
        invariant Sound() && SkipSpace(body, cursor) == end
        decreases |body| - cursor
      {
        cursor := cursor + 1;
      }
    }

    method Consume(expected: u8) returns (ok: bool)
      requires Sound() && expected != 0
      modifies this`cursor
      ensures Sound() && ok == (At(body, old(cursor)) == expected)
      ensures cursor == if ok then old(cursor) + 1 else old(cursor)
    {
      ok := Current() == expected;
      if ok {
        cursor := cursor + 1;
      }
    }

    method ScanHex() returns (ok: bool)
      requires Sound() && cursor + 4 <= |body|
      modifies this`cursor
      ensures Sound() && Token(ok, cursor) == HexEnd(body, old(cursor), 4)
    {
      ghost var whole := HexEnd(body, cursor, 4);
      for i := 0 to 4
        invariant cursor == old(cursor) + i && HexEnd(body, cursor, 4 - i) == whole
      {
        var hex := body[cursor];
        cursor := cursor + 1;
        if !IsHex(hex) {
          return false;
        }
      }
      return true;
    }

    // One character of a string: whether the scan of the string ends with it,
    // and how.
    method ScanChar() returns (ends: bool, ok: bool)
      requires Sound() && cursor < |body|
      modifies this`cursor
      ensures Sound() && old(cursor) < cursor
      ensures ends ==> ScanChars(body, old(cursor)) == Token(ok, cursor)
      ensures !ends ==> ScanChars(body, old(cursor)) == ScanChars(body, cursor)
    {
      hide HexEnd;
      ends, ok := true, false;
      var c := body[cursor];
      cursor := cursor + 1;
      if c == QUOTE {
        ok := true;
      } else if c < 0x20 {
      } else if c != BACKSLASH {
        ends := false;
      } else if cursor < |body| {
        var escaped := body[cursor];
        cursor := cursor + 1;
        if IsShortEscape(escaped) {
          ends := false;
        } else if escaped == LOWER_U && |body| - cursor >= 4 {
          var hex := ScanHex();
          ends := !hex;
        }
      }
    }

    method ScanStringToken() returns (ok: bool)
      requires Sound()
      modifies this`cursor
      ensures Sound() && Token(ok, cursor) == ScanString(body, old(cursor))
    {
      hide ScanChars;
      var opens := Consume(QUOTE);
      if !opens {
        return false;
      }
      ghost var whole := ScanChars(body, cursor);
      var ends := false;
      ok := false;
      while cursor < |body| && !ends
        invariant Sound()
        invariant !ends ==> ScanChars(body, cursor) == whole && !ok
        invariant ends ==> Token(ok, cursor) == whole
        decreases !ends, |body| - cursor
      {
        ends, ok := ScanChar();
        ok := ends && ok;
      }
      if !ends {
        CharsRunOut(body, cursor);
      }
    }

    method ScanLiteralToken(literal: seq<u8>) returns (ok: bool)
      requires Sound() && forall j :: 0 <= j < |literal| ==> literal[j] != 0
      modifies this`cursor
      ensures Sound() && Token(ok, cursor) == ScanLiteral(body, old(cursor), literal)
    {
      ghost var whole := ScanLiteral(body, cursor, literal);
      for i := 0 to |literal|
        invariant Sound() && ScanLiteral(body, cursor, literal[i..]) == whole
      {
        assert literal[i..][1..] == literal[i + 1..];
        var matches := Consume(literal[i]);
        if !matches {
          return false;
        }
      }
      return true;
    }

    // A digit, then all that follow it.
    method ScanDigitRun() returns (ok: bool)
      requires Sound()
      modifies this`cursor
      ensures Sound() && Token(ok, cursor) == ScanDigits(body, old(cursor))
    {
      if !IsDigit(Current()) {
        return false;
      }
      ghost var end := SkipDigits(body, cursor);
      while IsDigit(Current())
        invariant Sound() && SkipDigits(body, cursor) == end
        decreases |body| - cursor
      {
        cursor := cursor + 1;
      }
      return true;
    }

    method ScanNumberToken() returns (ok: bool)
      requires Sound()
      modifies this`cursor
      ensures Sound() && Token(ok, cursor) == ScanNumber(body, old(cursor))
    {
      hide ScanDigits;
      if Current() == MINUS {
        cursor := cursor + 1;
      }
      if Current() == ZERO {
        cursor := cursor + 1;
        ok := true;
      } else {
        ok := ScanDigitRun();
      }
      if ok && Current() == DOT {
        cursor := cursor + 1;
        ok := ScanDigitRun();
      }
      if ok && (Current() == LOWER_E || Current() == UPPER_E) {
        cursor := cursor + 1;
        if Current() == PLUS || Current() == MINUS {
          cursor := cursor + 1;
        }
        ok := ScanDigitRun();
      }
    }

    method ScanScalarToken() returns (ok: bool)
      requires Sound()
      modifies this`cursor
      ensures Sound() && Token(ok, cursor) == ScanScalar(body, old(cursor))
    {
      hide ScanString, ScanLiteral, ScanNumber;
      if Current() == QUOTE {
        ok := ScanStringToken();
      } else if Current() == TRUE_WORD[0] {
        ok := ScanLiteralToken(TRUE_WORD);
      } else if Current() == FALSE_WORD[0] {
        ok := ScanLiteralToken(FALSE_WORD);
      } else if Current() == NULL_WORD[0] {
        ok := ScanLiteralToken(NULL_WORD);
      } else {
        ok := ScanNumberToken();
      }
    }

    method ScanAnyValue(ghost depth: nat) returns (ok: bool)
      requires Sound()
      modifies this
      ensures Sound()
      ensures Result(ok) == ScanValue(body, maxValues, old(cursor), old(values), depth, old(deepest))
      decreases |body| - cursor, 3
    {
      hide ScanScalar, ScanMembers, ScanItems, SkipSpace;
      SkipWhitespace();
      values := values + 1;
      if values > maxValues {
        return false;
      }
      if Current() == OPEN_BRACE {
        ok := ScanObjectBody(depth + 1);
      } else if Current() == OPEN_BRACKET {
        ok := ScanArrayBody(depth + 1);
      } else {
        ok := ScanScalarToken();
      }
    }

    method ScanObjectBody(ghost depth: nat) returns (ok: bool)
      requires Sound() && cursor < |body|
      modifies this
      ensures Sound()
      ensures Result(ok) == ScanObject(body, maxValues, old(cursor), old(values), depth, old(deepest))
      decreases |body| - cursor, 2
    {
      hide ScanMembers, SkipSpace;
      deepest := Max(deepest, depth);
      cursor := cursor + 1;
      SkipWhitespace();
      var closed := Consume(CLOSE_BRACE);
      if closed {
        return true;
      }
      ghost var whole := ScanMembers(body, maxValues, cursor, values, depth, deepest);
      var more := true;
      ok := false;
      while more
        invariant Sound() && old(cursor) < cursor
        invariant more ==> ScanMembers(body, maxValues, cursor, values, depth, deepest) == whole
        invariant !more ==> Result(ok) == whole
        decreases more, |body| - cursor
      {
        more, ok := ScanMember(depth);
      }
    }

    // One member and what follows it: the closing brace, a comma, or an error.
    method ScanMember(ghost depth: nat) returns (more: bool, ok: bool)
      requires Sound()
      modifies this
      ensures Sound()
      ensures var whole := ScanMembers(body, maxValues, old(cursor), old(values), depth, old(deepest));
              if more then old(cursor) < cursor
                           && ScanMembers(body, maxValues, cursor, values, depth, deepest) == whole
              else Result(ok) == whole
      decreases |body| - cursor, 4
    {
      hide ScanValue, SkipSpace, ScanString;
      more, ok := false, false;
      var named := ScanStringToken();
      if named {
        SkipWhitespace();
        var colon := Consume(COLON);
        if colon {
          var valued := ScanAnyValue(depth);
          if valued {
            SkipWhitespace();
            ok := Consume(CLOSE_BRACE);
            if !ok {
              more := Consume(COMMA);
              if more {
                SkipWhitespace();
              }
            }
          }
        }
      }
    }

    method ScanArrayBody(ghost depth: nat) returns (ok: bool)
      requires Sound() && cursor < |body|
      modifies this
      ensures Sound()
      ensures Result(ok) == ScanArray(body, maxValues, old(cursor), old(values), depth, old(deepest))
      decreases |body| - cursor, 2
    {
      hide ScanItems, SkipSpace;
      deepest := Max(deepest, depth);
      cursor := cursor + 1;
      SkipWhitespace();
      var closed := Consume(CLOSE_BRACKET);
      if closed {
        return true;
      }
      ghost var whole := ScanItems(body, maxValues, cursor, values, depth, deepest);
      var more := true;
      ok := false;
      while more
        invariant Sound() && old(cursor) < cursor
        invariant more ==> ScanItems(body, maxValues, cursor, values, depth, deepest) == whole
        invariant !more ==> Result(ok) == whole
        decreases more, |body| - cursor
      {
        more, ok := ScanItem(depth);
      }
    }

    method ScanItem(ghost depth: nat) returns (more: bool, ok: bool)
      requires Sound()
      modifies this
      ensures Sound()
      ensures var whole := ScanItems(body, maxValues, old(cursor), old(values), depth, old(deepest));
              if more then old(cursor) < cursor
                           && ScanItems(body, maxValues, cursor, values, depth, deepest) == whole
              else Result(ok) == whole
      decreases |body| - cursor, 4
    {
      hide ScanValue, SkipSpace;
      more, ok := false, false;
      var valued := ScanAnyValue(depth);
      if valued {
        SkipWhitespace();
        ok := Consume(CLOSE_BRACKET);
        if !ok {
          more := Consume(COMMA);
          if more {
            SkipWhitespace();
          }
        }
      }
    }

    method ScanWhole() returns (ok: bool)
      requires Sound() && cursor == 0 && values == 0 && deepest == 0
      modifies this
      ensures Sound() && Result(ok) == ScanDocument(body, maxValues)
    {
      hide ScanValue, SkipSpace;
      ok := ScanAnyValue(0);
      if ok {
        SkipWhitespace();
        ok := cursor >= |body|;
      }
    }
  }

  lemma CharsRunOut(t: Text, k: nat)
    requires k == |t|
    ensures ScanChars(t, k) == Token(false, k)
  {
  }

  // ----- the checks around the scanner -----

  method JsonNestingWithinLimit(body: seq<u8>) returns (within: bool)
    ensures within == NestingWithinLimit(body)
  {
    var depth := 0;
    var inString, escaped := false, false;
    for i := 0 to |body|
      invariant NestingAt(body, i) == Nesting(depth, inString, escaped) && (!inString ==> !escaped)
      invariant forall k :: 0 <= k <= i ==> NestingAt(body, k).depth <= JSON_DOCUMENT_MAX_DEPTH
    {
      var c := body[i];
      OneStep(body, i);
      if inString {
        if escaped {
          escaped := false;
        } else if c == BACKSLASH {
          escaped := true;
        } else if c == QUOTE {
          inString := false;
        }
      } else if c == QUOTE {
        inString := true;
      } else if c == OPEN_BRACE || c == OPEN_BRACKET {
        depth := depth + 1;
        if depth > JSON_DOCUMENT_MAX_DEPTH {
          return false;
        }
      } else if (c == CLOSE_BRACE || c == CLOSE_BRACKET) && depth > 0 {
        depth := depth - 1;
      }
    }
    return true;
  }

  method JsonStructureAccepted(body: seq<u8>, maxValues: nat) returns (accepted: bool, overBudget: bool)
    ensures accepted <==> exists start, v :: Document(body, start, v) && Count(v) <= maxValues
    ensures (exists start, v :: Document(body, start, v) && Count(v) > maxValues) ==> overBudget
    ensures overBudget ==> !accepted
  {
    hide Document, Count, ScanDocument;
    var scanner := new JsonStructureScanner(body, maxValues);
    accepted := scanner.ScanWhole();
    overBudget := scanner.values > maxValues;
    ScannerAcceptsTheGrammar(body, maxValues);
  }

  // What lets a body of at most maxBytes through to the JSON library; `text` is
  // the body up to its first NUL.
  method WithinLimits(text: seq<u8>, maxBytes: nat, maxValues: nat) returns (accepted: bool, overLimit: bool)
    ensures accepted <==>
      && maxBytes > 0 && maxValues > 0 && |text| <= maxBytes
      && exists start, v :: Document(text, start, v) && Count(v) <= maxValues && Height(v) <= JSON_DOCUMENT_MAX_DEPTH
    ensures accepted ==> !overLimit && ScanDocument(text, maxValues).deepest <= JSON_DOCUMENT_MAX_DEPTH
  {
    hide Document, Count, Height, ScanDocument, NestingWithinLimit;
    forall start, v | Document(text, start, v)
      ensures NestingWithinLimit(text) <==> Height(v) <= JSON_DOCUMENT_MAX_DEPTH
    {
      DocumentsPassExactly(text, start, v);
    }
    if maxBytes == 0 || maxValues == 0 {
      return false, false;
    }
    overLimit := true;
    accepted := false;
    if |text| <= maxBytes {
      var within := JsonNestingWithinLimit(text);
      if within {
        RecursionIsBounded(text, maxValues);
        accepted, overLimit := JsonStructureAccepted(text, maxValues);
      }
    }
  }
}
