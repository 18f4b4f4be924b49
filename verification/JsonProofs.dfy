// The scanner against the grammar: it accepts exactly the documents within the
// value budget, counts their values, and never nests deeper than the pre-pass.
module JsonProofs {
  import opened Bytes
  import opened JsonScan
  import opened JsonGrammar

  // ----- acceptance implies a derivation -----

  lemma ScalarSound(t: Text, k: nat) returns (v: Tree)
    requires k <= |t| && ScanScalar(t, k).ok
    requires At(t, k) != OPEN_BRACE && At(t, k) != OPEN_BRACKET
    ensures Derives(t, k, v) && End(k, v) == ScanScalar(t, k).cursor && Count(v) == 1
  {
    hide StringAt, NumberAt, ScanNumber, ScanString, ScanLiteral;
    var end := ScanScalar(t, k).cursor;
    if At(t, k) == QUOTE {
      StringsAreScanned(t, k, end);
      v := String(end);
    } else if At(t, k) == TRUE_WORD[0] {
      LiteralsAreScanned(t, k, TRUE_WORD);
      v := Word(TRUE_WORD);
    } else if At(t, k) == FALSE_WORD[0] {
      LiteralsAreScanned(t, k, FALSE_WORD);
      v := Word(FALSE_WORD);
    } else if At(t, k) == NULL_WORD[0] {
      LiteralsAreScanned(t, k, NULL_WORD);
      v := Word(NULL_WORD);
    } else {
      v := NumberSound(t, k);
    }
  }

  lemma ValueSound(t: Text, max: nat, k: nat, values: nat, depth: nat, deepest: nat) returns (v: Tree)
    requires k <= |t| && ScanValue(t, max, k, values, depth, deepest).ok
    ensures var r := ScanValue(t, max, k, values, depth, deepest);
            && Derives(t, SkipSpace(t, k), v) && End(SkipSpace(t, k), v) == r.cursor
            && r.values == values + Count(v) && r.values <= max
    decreases |t| - k, 3
  {
    hide ScanScalar, Spaces, StringAt, WordAt, NumberAt;
    var s := SkipSpace(t, k);
    if At(t, s) == OPEN_BRACE {
      var inner := SkipSpace(t, s + 1);
      SkipSpaceIs(t, s + 1);
      if At(t, inner) == CLOSE_BRACE {
        v := EmptyObject(inner);
      } else {
        var members := MembersSound(t, max, inner, values + 1, depth + 1, Max(deepest, depth + 1));
        v := Object(inner, members);
      }
    } else if At(t, s) == OPEN_BRACKET {
      var inner := SkipSpace(t, s + 1);
      SkipSpaceIs(t, s + 1);
      if At(t, inner) == CLOSE_BRACKET {
        v := EmptyArray(inner);
      } else {
        var items := ItemsSound(t, max, inner, values + 1, depth + 1, Max(deepest, depth + 1));
        v := Array(inner, items);
      }
    } else {
      v := ScalarSound(t, s);
    }
  }

  lemma ItemsSound(t: Text, max: nat, k: nat, values: nat, depth: nat, deepest: nat) returns (items: Items)
    requires k <= |t| && !IsSpace(At(t, k)) && ScanItems(t, max, k, values, depth, deepest).ok
    ensures var r := ScanItems(t, max, k, values, depth, deepest);
            && DerivesItems(t, k, items) && k < ItemsEnd(items) == r.cursor
            && r.values == values + CountItems(items) && r.values <= max
    decreases |t| - k, 4
  {
    hide Spaces, StringAt, WordAt, NumberAt, ScanValue;
    SkipSpaceStays(t, k);
    var value := ValueSound(t, max, k, values, depth, deepest);
    var r := ScanValue(t, max, k, values, depth, deepest);
    var s := SkipSpace(t, r.cursor);
    SkipSpaceIs(t, r.cursor);
    if At(t, s) == CLOSE_BRACKET {
      items := LastItem(value, s);
    } else {
      var next := SkipSpace(t, s + 1);
      SkipSpaceIs(t, s + 1);
      var rest := ItemsSound(t, max, next, r.values, depth, r.deepest);
      items := MoreItems(value, s, next, rest);
    }
  }

  lemma MembersSound(t: Text, max: nat, k: nat, values: nat, depth: nat, deepest: nat) returns (members: Members)
    requires k <= |t| && ScanMembers(t, max, k, values, depth, deepest).ok
    ensures var r := ScanMembers(t, max, k, values, depth, deepest);
            && DerivesMembers(t, k, members) && k < MembersEnd(members) == r.cursor
            && r.values == values + CountMembers(members) && r.values <= max
    decreases |t| - k, 4
  {
    hide Spaces, StringAt, Derives, ScanValue, ScanString, SkipSpace, IsSpace, Count, End;
    var keyEnd, colon, start := NameSound(t, k);
    var value := ValueSound(t, max, colon + 1, values, depth, deepest);
    var r := ScanValue(t, max, colon + 1, values, depth, deepest);
    var s := SkipSpace(t, r.cursor);
    SkipSpaceIs(t, r.cursor);
    if At(t, s) == CLOSE_BRACE {
      members := LastMember(keyEnd, colon, start, value, s);
    } else {
      var next := SkipSpace(t, s + 1);
      SkipSpaceIs(t, s + 1);
      var rest := MembersSound(t, max, next, r.values, depth, r.deepest);
      members := MoreMembers(keyEnd, colon, start, value, s, next, rest);
    }
  }

  // The name of a member and its colon.
  lemma NameSound(t: Text, k: nat) returns (keyEnd: nat, colon: nat, start: nat)
    requires k <= |t| && ScanString(t, k).ok && At(t, SkipSpace(t, ScanString(t, k).cursor)) == COLON
    ensures keyEnd == ScanString(t, k).cursor && colon == SkipSpace(t, keyEnd) && colon < |t|
    ensures start == SkipSpace(t, colon + 1) && k < keyEnd
    ensures StringAt(t, k, keyEnd) && Spaces(t, keyEnd, colon) && Spaces(t, colon + 1, start)
  {
    hide Spaces, StringAt;
    keyEnd := ScanString(t, k).cursor;
    colon := SkipSpace(t, keyEnd);
    start := SkipSpace(t, colon + 1);
    StringsAreScanned(t, k, keyEnd);
    SkipSpaceIs(t, keyEnd);
    SkipSpaceIs(t, colon + 1);
  }

  lemma SkipSpaceStays(t: Text, k: nat)
    requires k <= |t| && !IsSpace(At(t, k))
    ensures SkipSpace(t, k) == k
  {
  }

  // ----- a derivation implies acceptance, within the budget -----

  // The scan of a derived part: accepted at its end with its values counted,
  // or cut short by the budget with the counter one over.
  ghost predicate Outcome(r: Scan, max: nat, values: nat, count: nat, end: nat) {
    if values + count <= max then r.ok && r.cursor == end && r.values == values + count
    else !r.ok && r.values == max + 1
  }

  lemma ScalarComplete(t: Text, i: nat, v: Tree)
    requires Derives(t, i, v) && (v.Word? || v.Number? || v.String?)
    requires EndsNumber(At(t, End(i, v)))
    ensures ScanScalar(t, i) == Token(true, End(i, v))
    ensures !IsSpace(At(t, i)) && At(t, i) != OPEN_BRACE && At(t, i) != OPEN_BRACKET
  {
    hide ScanNumber, ScanString, ScanLiteral;
    match v
    case Word(word) =>
      LiteralsAreScanned(t, i, word);
      assert t[i + 0] == word[0];
    case Number(_, _, _, _) => NumberComplete(t, i, v);
    case String(stringEnd) => StringsAreScanned(t, i, stringEnd);
  }

  lemma StartIsNoSpace(t: Text, i: nat, v: Tree)
    requires Derives(t, i, v)
    ensures i < |t| && !IsSpace(At(t, i))
  {
    hide Spaces, Chars;
    if v.Word? {
      assert t[i + 0] == v.word[0];
    }
  }

  lemma ValueComplete(t: Text, max: nat, k: nat, values: nat, depth: nat, deepest: nat, i: nat, v: Tree)
    requires Spaces(t, k, i) && Derives(t, i, v) && EndsNumber(At(t, End(i, v))) && values <= max
    ensures Outcome(ScanValue(t, max, k, values, depth, deepest), max, values, Count(v), End(i, v))
    decreases v
  {
    hide ScanScalar, Spaces, StringAt, WordAt, NumberAt, Digits;
    StartIsNoSpace(t, i, v);
    SkipSpaceReaches(t, k, i);
    if values + 1 <= max {
      match v
      case EmptyArray(close) => SkipSpaceReaches(t, i + 1, close);
      case Array(first, items) =>
        StartIsNoSpace(t, first, items.value);
        SkipSpaceReaches(t, i + 1, first);
        NotTheEnd(t, first, items.value);
        ItemsComplete(t, max, first, values + 1, depth + 1, Max(deepest, depth + 1), items);
      case EmptyObject(close) => SkipSpaceReaches(t, i + 1, close);
      case Object(first, members) =>
        StringStart(t, first, members.keyEnd);
        SkipSpaceReaches(t, i + 1, first);
        MembersComplete(t, max, first, values + 1, depth + 1, Max(deepest, depth + 1), members);
      case _ => ScalarComplete(t, i, v);
    }
  }

  lemma NotTheEnd(t: Text, i: nat, v: Tree)
    requires Derives(t, i, v)
    ensures At(t, i) != CLOSE_BRACKET
  {
    hide Spaces, Chars;
    if v.Word? {
      assert t[i + 0] == v.word[0];
    }
  }

  lemma StringStart(t: Text, i: nat, end: nat)
    requires StringAt(t, i, end)
    ensures At(t, i) == QUOTE && i < end <= |t|
  {
  }

  // Spaces lead from the end of a part to the separator behind it.
  lemma Separator(t: Text, a: nat, b: nat)
    requires Spaces(t, a, b)
    requires At(t, b) == COMMA || At(t, b) == CLOSE_BRACKET || At(t, b) == CLOSE_BRACE || At(t, b) == COLON
    ensures SkipSpace(t, a) == b && EndsNumber(At(t, a)) && b < |t|
  {
    SkipSpaceReaches(t, a, b);
  }

  lemma ItemsComplete(t: Text, max: nat, i: nat, values: nat, depth: nat, deepest: nat, items: Items)
    requires i <= |t| && DerivesItems(t, i, items) && values <= max
    ensures Outcome(ScanItems(t, max, i, values, depth, deepest), max, values, CountItems(items), ItemsEnd(items))
    decreases items
  {
    hide Spaces, Derives, ScanValue, EndsNumber;
    var a := End(i, items.value);
    var r := ScanValue(t, max, i, values, depth, deepest);
    StartIsNoSpace(t, i, items.value);
    NoSpaces(t, i);
    match items
    case LastItem(value, close) =>
      Separator(t, a, close);
      ValueComplete(t, max, i, values, depth, deepest, i, value);
    case MoreItems(value, comma, next, rest) =>
      Separator(t, a, comma);
      ValueComplete(t, max, i, values, depth, deepest, i, value);
      StartIsNoSpace(t, next, rest.value);
      SkipSpaceReaches(t, comma + 1, next);
      if r.ok {
        ItemsComplete(t, max, next, r.values, depth, r.deepest, rest);
      }
  }

  lemma NoSpaces(t: Text, i: nat)
    requires i <= |t|
    ensures Spaces(t, i, i)
  {
  }

  lemma MembersComplete(t: Text, max: nat, i: nat, values: nat, depth: nat, deepest: nat, members: Members)
    requires i <= |t| && DerivesMembers(t, i, members) && values <= max
    ensures Outcome(ScanMembers(t, max, i, values, depth, deepest),
                    max, values, CountMembers(members), MembersEnd(members))
    decreases members
  {
    hide Spaces, Derives, ScanValue, EndsNumber, StringAt, ScanString;
    StringStart(t, i, members.keyEnd);
    StringsAreScanned(t, i, members.keyEnd);
    Separator(t, members.keyEnd, members.colon);
    var a := End(members.start, members.value);
    var r := ScanValue(t, max, members.colon + 1, values, depth, deepest);
    match members
    case LastMember(_, colon, start, value, close) =>
      Separator(t, a, close);
      ValueComplete(t, max, colon + 1, values, depth, deepest, start, value);
    case MoreMembers(_, colon, start, value, comma, next, rest) =>
      Separator(t, a, comma);
      ValueComplete(t, max, colon + 1, values, depth, deepest, start, value);
      StringStart(t, next, rest.keyEnd);
      SkipSpaceReaches(t, comma + 1, next);
      if r.ok {
        MembersComplete(t, max, next, r.values, depth, r.deepest, rest);
      }
  }

  // ----- the whole document -----

  // The scanner accepts a text exactly when it is a document of the grammar
  // with at most max values, and reports the number of values. A document over
  // the budget is refused with the counter over the budget.
  lemma ScannerAcceptsTheGrammar(t: Text, max: nat)
    ensures ScanDocument(t, max).ok <==>
      exists start, v :: Document(t, start, v) && Count(v) <= max
    ensures forall start, v :: Document(t, start, v) ==>
      ScanDocument(t, max).values == if Count(v) <= max then Count(v) else max + 1
  {
    hide Document, Count, Derives;
    if ScanDocument(t, max).ok {
      var start, v := DocumentSound(t, max);
    }
    forall start, v | Document(t, start, v)
      ensures ScanDocument(t, max).ok == (Count(v) <= max)
      ensures ScanDocument(t, max).values == if Count(v) <= max then Count(v) else max + 1
    {
      DocumentComplete(t, max, start, v);
    }
  }

  lemma DocumentSound(t: Text, max: nat) returns (start: nat, v: Tree)
    requires ScanDocument(t, max).ok
    ensures Document(t, start, v) && Count(v) <= max
  {
    hide Derives, ScanValue, Spaces;
    start := SkipSpace(t, 0);
    SkipSpaceIs(t, 0);
    v := ValueSound(t, max, 0, 0, 0, 0);
    SkipSpaceIs(t, End(start, v));
  }

  lemma DocumentComplete(t: Text, max: nat, start: nat, v: Tree)
    requires Document(t, start, v)
    ensures ScanDocument(t, max).ok == (Count(v) <= max)
    ensures ScanDocument(t, max).values == if Count(v) <= max then Count(v) else max + 1
  {
    hide Derives, ScanValue;
    SkipSpaceReaches(t, End(start, v), |t|);
    assert EndsNumber(At(t, End(start, v)));
    ValueComplete(t, max, 0, 0, 0, 0, start, v);
  }
}
