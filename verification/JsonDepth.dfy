// The nesting pre-pass bounds the scanner's recursion on any text it lets
// through, well formed or not.
module JsonDepth {
  import opened Bytes
  import opened JsonScan
  import opened JsonGrammar

  // The pre-pass stands at position k outside any string, as deep as the scanner.
  ghost predicate InSync(t: Text, k: nat, depth: nat) {
    k <= |t| && NestingAt(t, k) == Nesting(depth, false, false)
  }

  ghost predicate InString(t: Text, k: nat, depth: nat) {
    k <= |t| && NestingAt(t, k) == Nesting(depth, true, false)
  }

  predicate Plain(c: u8) {
    c != QUOTE && c != OPEN_BRACE && c != CLOSE_BRACE && c != OPEN_BRACKET && c != CLOSE_BRACKET
  }

  lemma {:induction false} PlainKeeps(t: Text, a: nat, b: nat, depth: nat)
    requires InSync(t, a, depth) && a <= b <= |t| && forall k :: a <= k < b ==> Plain(t[k])
    ensures InSync(t, b, depth)
    decreases b - a
  {
    if a < b {
      assert NestingAt(t, a + 1) == NestingStep(NestingAt(t, a), t[a]);
      PlainKeeps(t, a + 1, b, depth);
    }
  }

  lemma SpaceKeeps(t: Text, k: nat, depth: nat)
    requires InSync(t, k, depth)
    ensures InSync(t, SkipSpace(t, k), depth)
  {
    hide InSync, NestingAt;
    SyncBound(t, k, depth);
    SkipSpaceIs(t, k);
    PlainKeeps(t, k, SkipSpace(t, k), depth);
  }

  lemma SyncBound(t: Text, k: nat, depth: nat)
    requires InSync(t, k, depth)
    ensures k <= |t|
  {
  }

  lemma OneStep(t: Text, k: nat)
    requires k < |t|
    ensures NestingAt(t, k + 1) == NestingStep(NestingAt(t, k), t[k])
  {
  }

  // Hexadecimal digits are ordinary string characters for the pre-pass.
  lemma HexKeeps(t: Text, k: nat, depth: nat)
    requires InString(t, k, depth) && k + 4 <= |t| && forall j :: k <= j < k + 4 ==> IsHex(t[j])
    ensures InString(t, k + 4, depth)
  {
    hide NestingAt;
    OneStep(t, k);
    OneStep(t, k + 1);
    OneStep(t, k + 2);
    OneStep(t, k + 3);
  }

  lemma EscapeKeeps(t: Text, k: nat, depth: nat)
    requires InString(t, k, depth) && k + 2 <= |t| && t[k] == BACKSLASH
    ensures InString(t, k + 2, depth)
  {
    hide NestingAt;
    OneStep(t, k);
    OneStep(t, k + 1);
  }

  lemma {:induction false} CharsKeep(t: Text, k: nat, depth: nat)
    requires InString(t, k, depth) && ScanChars(t, k).ok
    ensures InSync(t, ScanChars(t, k).cursor, depth)
    decreases |t| - k
  {
    hide NestingAt;
    if t[k] == QUOTE {
      OneStep(t, k);
    } else if t[k] != BACKSLASH {
      OneStep(t, k);
      CharsKeep(t, k + 1, depth);
    } else {
      EscapeKeeps(t, k, depth);
      if IsShortEscape(t[k + 1]) {
        CharsKeep(t, k + 2, depth);
      } else {
        HexKeeps(t, k + 2, depth);
        CharsKeep(t, k + 6, depth);
      }
    }
  }

  lemma StringKeeps(t: Text, k: nat, depth: nat)
    requires InSync(t, k, depth) && ScanString(t, k).ok
    ensures InSync(t, ScanString(t, k).cursor, depth)
  {
    hide NestingAt, ScanChars;
    OneStep(t, k);
    CharsKeep(t, k + 1, depth);
  }

  lemma NumberKeeps(t: Text, k: nat, depth: nat)
    requires InSync(t, k, depth) && ScanNumber(t, k).ok
    ensures InSync(t, ScanNumber(t, k).cursor, depth)
  {
    hide InSync, NestingAt, ScanNumber;
    SyncBound(t, k, depth);
    var v := NumberSound(t, k);
    NumberIsPlain(t, k, v);
    PlainKeeps(t, k, v.exponentEnd, depth);
  }

  lemma NumberIsPlain(t: Text, k: nat, v: Tree)
    requires k <= |t| && v.Number? && NumberAt(t, k, v)
    ensures k <= v.exponentEnd <= |t| && forall j :: k <= j < v.exponentEnd ==> Plain(t[j])
  {
  }

  lemma LiteralKeeps(t: Text, k: nat, word: seq<u8>, depth: nat)
    requires InSync(t, k, depth) && (word == TRUE_WORD || word == FALSE_WORD || word == NULL_WORD)
    requires ScanLiteral(t, k, word).ok
    ensures InSync(t, ScanLiteral(t, k, word).cursor, depth)
  {
    hide InSync, NestingAt, ScanLiteral;
    SyncBound(t, k, depth);
    LiteralsAreScanned(t, k, word);
    forall j | k <= j < k + |word|
      ensures Plain(t[j])
    {
      assert t[k + (j - k)] == word[j - k];
    }
    PlainKeeps(t, k, k + |word|, depth);
  }

  lemma ScalarKeeps(t: Text, k: nat, depth: nat)
    requires InSync(t, k, depth) && ScanScalar(t, k).ok
    ensures InSync(t, ScanScalar(t, k).cursor, depth)
  {
    hide InSync, ScanString, ScanNumber, ScanLiteral;
    if At(t, k) == QUOTE {
      StringKeeps(t, k, depth);
    } else if At(t, k) == TRUE_WORD[0] {
      LiteralKeeps(t, k, TRUE_WORD, depth);
    } else if At(t, k) == FALSE_WORD[0] {
      LiteralKeeps(t, k, FALSE_WORD, depth);
    } else if At(t, k) == NULL_WORD[0] {
      LiteralKeeps(t, k, NULL_WORD, depth);
    } else {
      NumberKeeps(t, k, depth);
    }
  }

  lemma OpensFrame(t: Text, k: nat, depth: nat)
    requires InSync(t, k, depth) && (At(t, k) == OPEN_BRACE || At(t, k) == OPEN_BRACKET) && NestingWithinLimit(t)
    ensures k < |t| && InSync(t, k + 1, depth + 1) && depth + 1 <= JSON_DOCUMENT_MAX_DEPTH
  {
    hide NestingAt;
    OneStep(t, k);
  }

  lemma ClosesFrame(t: Text, k: nat, depth: nat)
    requires InSync(t, k, depth + 1) && (At(t, k) == CLOSE_BRACE || At(t, k) == CLOSE_BRACKET)
    ensures k < |t| && InSync(t, k + 1, depth)
  {
    hide NestingAt;
    OneStep(t, k);
  }

  lemma PassesByte(t: Text, k: nat, depth: nat)
    requires InSync(t, k, depth) && (At(t, k) == COMMA || At(t, k) == COLON)
    ensures k < |t| && InSync(t, k + 1, depth)
  {
    hide NestingAt;
    OneStep(t, k);
  }

  // ----- the recursion -----

  // The scan stayed within the limit; where it succeeded, the pre-pass is back
  // at the same depth behind it.
  ghost predicate Bounded(t: Text, r: Scan, depth: nat) {
    r.deepest <= JSON_DOCUMENT_MAX_DEPTH && (r.ok ==> InSync(t, r.cursor, depth))
  }

  lemma ValueBounded(t: Text, max: nat, k: nat, values: nat, depth: nat, deepest: nat)
    requires NestingWithinLimit(t) && InSync(t, k, depth) && deepest <= JSON_DOCUMENT_MAX_DEPTH
    ensures k <= |t| && Bounded(t, ScanValue(t, max, k, values, depth, deepest), depth)
    decreases |t| - k, 3
  {
    hide InSync, NestingWithinLimit, SkipSpace, ScanScalar, ScanMembers, ScanItems;
    SyncBound(t, k, depth);
    SpaceKeeps(t, k, depth);
    var s := SkipSpace(t, k);
    if At(t, s) == OPEN_BRACE || At(t, s) == OPEN_BRACKET {
      OpensFrame(t, s, depth);
      SpaceKeeps(t, s + 1, depth + 1);
      var inner := SkipSpace(t, s + 1);
      if At(t, inner) == CLOSE_BRACE || At(t, inner) == CLOSE_BRACKET {
        ClosesFrame(t, inner, depth);
      }
      MembersBounded(t, max, inner, values + 1, depth, Max(deepest, depth + 1));
      ItemsBounded(t, max, inner, values + 1, depth, Max(deepest, depth + 1));
    } else if ScanScalar(t, s).ok {
      ScalarKeeps(t, s, depth);
    }
  }

  lemma ItemsBounded(t: Text, max: nat, k: nat, values: nat, depth: nat, deepest: nat)
    requires NestingWithinLimit(t) && InSync(t, k, depth + 1) && deepest <= JSON_DOCUMENT_MAX_DEPTH
    ensures k <= |t| && Bounded(t, ScanItems(t, max, k, values, depth + 1, deepest), depth)
    decreases |t| - k, 4
  {
    hide InSync, NestingWithinLimit, SkipSpace, ScanValue;
    SyncBound(t, k, depth + 1);
    ValueBounded(t, max, k, values, depth + 1, deepest);
    var v := ScanValue(t, max, k, values, depth + 1, deepest);
    if v.ok {
      SpaceKeeps(t, v.cursor, depth + 1);
      var s := SkipSpace(t, v.cursor);
      if At(t, s) == CLOSE_BRACKET {
        ClosesFrame(t, s, depth);
      } else if At(t, s) == COMMA {
        PassesByte(t, s, depth + 1);
        SpaceKeeps(t, s + 1, depth + 1);
        ItemsBounded(t, max, SkipSpace(t, s + 1), v.values, depth, v.deepest);
      }
    }
  }

  lemma MembersBounded(t: Text, max: nat, k: nat, values: nat, depth: nat, deepest: nat)
    requires NestingWithinLimit(t) && InSync(t, k, depth + 1) && deepest <= JSON_DOCUMENT_MAX_DEPTH
    ensures k <= |t| && Bounded(t, ScanMembers(t, max, k, values, depth + 1, deepest), depth)
    decreases |t| - k, 4
  {
    hide InSync, NestingWithinLimit, SkipSpace, ScanValue, ScanString;
    SyncBound(t, k, depth + 1);
    var key := ScanString(t, k);
    if key.ok {
      StringKeeps(t, k, depth + 1);
      SpaceKeeps(t, key.cursor, depth + 1);
      var colon := SkipSpace(t, key.cursor);
      if At(t, colon) == COLON {
        PassesByte(t, colon, depth + 1);
        ValueBounded(t, max, colon + 1, values, depth + 1, deepest);
        var v := ScanValue(t, max, colon + 1, values, depth + 1, deepest);
        if v.ok {
          SpaceKeeps(t, v.cursor, depth + 1);
          var s := SkipSpace(t, v.cursor);
          if At(t, s) == CLOSE_BRACE {
            ClosesFrame(t, s, depth);
          } else if At(t, s) == COMMA {
            PassesByte(t, s, depth + 1);
            SpaceKeeps(t, s + 1, depth + 1);
            MembersBounded(t, max, SkipSpace(t, s + 1), v.values, depth, v.deepest);
          }
        }
      }
    }
  }

  // On any text the pre-pass lets through, object and array frames never nest
  // deeper than 32, whether the scan succeeds or not.
  lemma RecursionIsBounded(t: Text, max: nat)
    requires NestingWithinLimit(t)
    ensures ScanDocument(t, max).deepest <= JSON_DOCUMENT_MAX_DEPTH
  {
    assert InSync(t, 0, 0);
    ValueBounded(t, max, 0, 0, 0, 0);
  }
}
