// The nesting pre-pass on documents of the grammar: it lets through exactly
// those whose arrays and objects are nested at most 32 deep.
module JsonNesting {
  import opened Bytes
  import opened JsonScan
  import opened JsonGrammar
  import opened JsonDepth

  // How many arrays and objects are around the innermost ones of a value, those
  // included.
  function Height(v: Tree): nat {
    match v
    case EmptyArray(_) => 1
    case Array(_, items) => 1 + HeightItems(items)
    case EmptyObject(_) => 1
    case Object(_, members) => 1 + HeightMembers(members)
    case _ => 0
  }

  function HeightItems(items: Items): nat {
    match items
    case LastItem(value, _) => Height(value)
    case MoreItems(value, _, _, rest) => Larger(Height(value), HeightItems(rest))
  }

  function HeightMembers(members: Members): nat {
    match members
    case LastMember(_, _, _, value, _) => Height(value)
    case MoreMembers(_, _, _, value, _, _, rest) => Larger(Height(value), HeightMembers(rest))
  }

  function Larger(a: nat, b: nat): nat {
    if a < b then b else a
  }

  // ----- the pre-pass over a stretch of text -----

  // Its depth over the positions a to b is at most m, and m at one of them.
  ghost predicate Peaks(t: Text, a: nat, b: nat, m: nat) {
    && a <= b <= |t| && (forall k :: a <= k <= b ==> NestingAt(t, k).depth <= m)
    && exists k :: a <= k <= b && NestingAt(t, k).depth == m
  }

  lemma JoinPeaks(t: Text, a: nat, b: nat, c: nat, m: nat, n: nat)
    requires Peaks(t, a, b, m) && Peaks(t, b, c, n)
    ensures Peaks(t, a, c, Larger(m, n))
  {
    hide NestingAt;
    var i :| a <= i <= b && NestingAt(t, i).depth == m;
    var j :| b <= j <= c && NestingAt(t, j).depth == n;
    assert NestingAt(t, if m < n then j else i).depth == Larger(m, n);
  }

  lemma OnePeak(t: Text, k: nat, depth: nat)
    requires InSync(t, k, depth)
    ensures Peaks(t, k, k, depth)
  {
  }

  lemma StepPeaks(t: Text, a: nat, m: nat, n: nat)
    requires a < |t| && NestingAt(t, a).depth == m && NestingAt(t, a + 1).depth == n
    ensures Peaks(t, a, a + 1, Larger(m, n))
  {
    hide NestingAt;
    assert NestingAt(t, if m < n then a + 1 else a).depth == Larger(m, n);
  }

  lemma {:induction false} PlainPeaks(t: Text, a: nat, b: nat, depth: nat)
    requires InSync(t, a, depth) && a <= b <= |t| && forall k :: a <= k < b ==> Plain(t[k])
    ensures InSync(t, b, depth) && Peaks(t, a, b, depth)
    decreases b - a
  {
    hide NestingAt;
    if a == b {
      OnePeak(t, a, depth);
    } else {
      OneStep(t, a);
      StepPeaks(t, a, depth, depth);
      PlainPeaks(t, a + 1, b, depth);
      JoinPeaks(t, a, a + 1, b, depth, depth);
    }
  }

  lemma SpacesPeak(t: Text, a: nat, b: nat, depth: nat)
    requires InSync(t, a, depth) && Spaces(t, a, b)
    ensures InSync(t, b, depth) && Peaks(t, a, b, depth)
  {
    hide InSync, NestingAt, Peaks;
    PlainPeaks(t, a, b, depth);
  }

  // ----- strings -----

  ghost predicate Level(t: Text, a: nat, b: nat, depth: nat) {
    a <= b <= |t| && forall k :: a <= k <= b ==> NestingAt(t, k).depth == depth
  }

  lemma LevelPeaks(t: Text, a: nat, b: nat, depth: nat)
    requires Level(t, a, b, depth)
    ensures Peaks(t, a, b, depth)
  {
    hide NestingAt;
    assert NestingAt(t, a).depth == depth;
  }

  // Inside a string nothing changes the depth.
  lemma {:induction false} InsideIsLevel(t: Text, a: nat, b: nat, depth: nat)
    requires a <= b <= |t| && NestingAt(t, a).depth == depth
    requires forall k :: a <= k < b ==> NestingAt(t, k).inString
    ensures Level(t, a, b, depth)
    decreases b - a
  {
    if a < b {
      OneStep(t, a);
      InsideIsLevel(t, a + 1, b, depth);
    }
  }

  lemma {:induction false} CharsStayInside(t: Text, k: nat, end: nat, depth: nat)
    requires InString(t, k, depth) && Chars(t, k, end)
    ensures InSync(t, end, depth) && Level(t, k, end, depth)
    decreases |t| - k
  {
    hide NestingAt;
    if t[k] == QUOTE {
      OneStep(t, k);
    } else if t[k] != BACKSLASH {
      OneStep(t, k);
      CharsStayInside(t, k + 1, end, depth);
    } else {
      EscapeKeeps(t, k, depth);
      OneStep(t, k);
      if IsShortEscape(t[k + 1]) {
        CharsStayInside(t, k + 2, end, depth);
      } else {
        UnicodeStaysInside(t, k, depth);
        HexKeeps(t, k + 2, depth);
        CharsStayInside(t, k + 6, end, depth);
      }
    }
  }

  lemma UnicodeStaysInside(t: Text, k: nat, depth: nat)
    requires InString(t, k, depth) && k + 6 <= |t| && t[k] == BACKSLASH && t[k + 1] == LOWER_U
    requires forall j :: k + 2 <= j < k + 6 ==> IsHex(t[j])
    ensures Level(t, k, k + 6, depth)
  {
    hide NestingAt;
    OneStep(t, k);
    OneStep(t, k + 1);
    OneStep(t, k + 2);
    OneStep(t, k + 3);
    OneStep(t, k + 4);
    OneStep(t, k + 5);
  }

  lemma StringPeaks(t: Text, i: nat, end: nat, depth: nat)
    requires InSync(t, i, depth) && StringAt(t, i, end)
    ensures InSync(t, end, depth) && Peaks(t, i, end, depth)
  {
    hide NestingAt, Chars;
    CharsFit(t, i, end);
    OneStep(t, i);
    StepPeaks(t, i, depth, depth);
    CharsStayInside(t, i + 1, end, depth);
    LevelPeaks(t, i + 1, end, depth);
    JoinPeaks(t, i, i + 1, end, depth, depth);
  }

  lemma CharsFit(t: Text, i: nat, end: nat)
    requires StringAt(t, i, end)
    ensures i + 1 < end <= |t|
  {
  }

  // ----- values -----

  lemma WordPeaks(t: Text, i: nat, word: seq<u8>, depth: nat)
    requires InSync(t, i, depth) && WordAt(t, i, word)
    ensures InSync(t, i + |word|, depth) && Peaks(t, i, i + |word|, depth)
  {
    hide InSync, NestingAt, Peaks;
    forall j | i <= j < i + |word|
      ensures Plain(t[j])
    {
      assert t[i + (j - i)] == word[j - i];
    }
    PlainPeaks(t, i, i + |word|, depth);
  }

  lemma NumberPeaks(t: Text, i: nat, v: Tree, depth: nat)
    requires InSync(t, i, depth) && v.Number? && NumberAt(t, i, v)
    ensures InSync(t, v.exponentEnd, depth) && Peaks(t, i, v.exponentEnd, depth)
  {
    hide InSync, NestingAt, Peaks, NumberAt;
    SyncBound(t, i, depth);
    NumberIsPlain(t, i, v);
    PlainPeaks(t, i, v.exponentEnd, depth);
  }

  lemma OpenPeaks(t: Text, i: nat, depth: nat)
    requires InSync(t, i, depth) && (At(t, i) == OPEN_BRACE || At(t, i) == OPEN_BRACKET)
    ensures InSync(t, i + 1, depth + 1) && Peaks(t, i, i + 1, depth + 1)
  {
    hide NestingAt;
    OneStep(t, i);
    StepPeaks(t, i, depth, depth + 1);
  }

  lemma ClosePeaks(t: Text, i: nat, depth: nat)
    requires InSync(t, i, depth + 1) && (At(t, i) == CLOSE_BRACE || At(t, i) == CLOSE_BRACKET)
    ensures InSync(t, i + 1, depth) && Peaks(t, i, i + 1, depth + 1)
  {
    hide NestingAt;
    OneStep(t, i);
    StepPeaks(t, i, depth + 1, depth);
  }

  lemma BytePeaks(t: Text, i: nat, depth: nat)
    requires InSync(t, i, depth) && (At(t, i) == COMMA || At(t, i) == COLON)
    ensures InSync(t, i + 1, depth) && Peaks(t, i, i + 1, depth)
  {
    hide NestingAt;
    OneStep(t, i);
    StepPeaks(t, i, depth, depth);
  }

  // Over a value the pre-pass rises by the value's height and comes back.
  lemma {:induction false} ValuePeaks(t: Text, i: nat, v: Tree, depth: nat)
    requires Derives(t, i, v) && InSync(t, i, depth)
    ensures InSync(t, End(i, v), depth) && Peaks(t, i, End(i, v), depth + Height(v))
    decreases v
  {
    hide InSync, NestingAt, Peaks, StringAt, NumberAt, WordAt, Spaces;
    match v
    case Word(word) => WordPeaks(t, i, word, depth);
    case Number(_, _, _, _) => NumberPeaks(t, i, v, depth);
    case String(end) => StringPeaks(t, i, end, depth);
    case EmptyArray(close) => EmptyPeaks(t, i, close, depth);
    case EmptyObject(close) => EmptyPeaks(t, i, close, depth);
    case Array(first, items) =>
      OpenPeaks(t, i, depth);
      SpacesPeak(t, i + 1, first, depth + 1);
      ItemsPeak(t, first, items, depth);
      JoinPeaks(t, i, i + 1, first, depth + 1, depth + 1);
      JoinPeaks(t, i, first, ItemsEnd(items), depth + 1, depth + 1 + HeightItems(items));
    case Object(first, members) =>
      OpenPeaks(t, i, depth);
      SpacesPeak(t, i + 1, first, depth + 1);
      MembersPeak(t, first, members, depth);
      JoinPeaks(t, i, i + 1, first, depth + 1, depth + 1);
      JoinPeaks(t, i, first, MembersEnd(members), depth + 1, depth + 1 + HeightMembers(members));
  }

  lemma EmptyPeaks(t: Text, i: nat, close: nat, depth: nat)
    requires InSync(t, i, depth) && (At(t, i) == OPEN_BRACE || At(t, i) == OPEN_BRACKET)
    requires Spaces(t, i + 1, close) && (At(t, close) == CLOSE_BRACE || At(t, close) == CLOSE_BRACKET)
    ensures InSync(t, close + 1, depth) && Peaks(t, i, close + 1, depth + 1)
  {
    hide InSync, NestingAt, Peaks, Spaces;
    OpenPeaks(t, i, depth);
    SpacesPeak(t, i + 1, close, depth + 1);
    ClosePeaks(t, close, depth);
    JoinPeaks(t, i, i + 1, close, depth + 1, depth + 1);
    JoinPeaks(t, i, close, close + 1, depth + 1, depth + 1);
  }

  lemma {:induction false} ItemsPeak(t: Text, i: nat, items: Items, depth: nat)
    requires DerivesItems(t, i, items) && InSync(t, i, depth + 1)
    ensures InSync(t, ItemsEnd(items), depth) && Peaks(t, i, ItemsEnd(items), depth + 1 + HeightItems(items))
    decreases items
  {
    hide InSync, NestingAt, Peaks, Spaces, Derives;
    var m := depth + 1 + Height(items.value);
    var e := End(i, items.value);
    ValuePeaks(t, i, items.value, depth + 1);
    match items
    case LastItem(value, close) =>
      SpacesPeak(t, e, close, depth + 1);
      ClosePeaks(t, close, depth);
      JoinPeaks(t, i, e, close, m, depth + 1);
      JoinPeaks(t, i, close, close + 1, m, depth + 1);
    case MoreItems(value, comma, next, rest) =>
      SeparatorPeaks(t, e, comma, next, depth);
      ItemsPeak(t, next, rest, depth);
      JoinPeaks(t, i, e, next, m, depth + 1);
      JoinPeaks(t, i, next, ItemsEnd(rest), m, depth + 1 + HeightItems(rest));
  }

  lemma SeparatorPeaks(t: Text, e: nat, mark: nat, next: nat, depth: nat)
    requires InSync(t, e, depth + 1) && Spaces(t, e, mark) && (At(t, mark) == COMMA || At(t, mark) == COLON)
    requires Spaces(t, mark + 1, next)
    ensures InSync(t, next, depth + 1) && Peaks(t, e, next, depth + 1)
  {
    hide InSync, NestingAt, Peaks, Spaces;
    SpacesPeak(t, e, mark, depth + 1);
    BytePeaks(t, mark, depth + 1);
    SpacesPeak(t, mark + 1, next, depth + 1);
    JoinPeaks(t, e, mark, mark + 1, depth + 1, depth + 1);
    JoinPeaks(t, e, mark + 1, next, depth + 1, depth + 1);
  }

  lemma {:induction false} MembersPeak(t: Text, i: nat, members: Members, depth: nat)
    requires DerivesMembers(t, i, members) && InSync(t, i, depth + 1)
    ensures InSync(t, MembersEnd(members), depth) && Peaks(t, i, MembersEnd(members), depth + 1 + HeightMembers(members))
    decreases members
  {
    hide InSync, NestingAt, Peaks, Spaces, Derives, StringAt;
    var start, m := members.start, depth + 1 + Height(members.value);
    var e := End(start, members.value);
    StringPeaks(t, i, members.keyEnd, depth + 1);
    SeparatorPeaks(t, members.keyEnd, members.colon, start, depth);
    JoinPeaks(t, i, members.keyEnd, start, depth + 1, depth + 1);
    ValuePeaks(t, start, members.value, depth + 1);
    JoinPeaks(t, i, start, e, depth + 1, m);
    match members
    case LastMember(_, _, _, value, close) =>
      SpacesPeak(t, e, close, depth + 1);
      ClosePeaks(t, close, depth);
      JoinPeaks(t, i, e, close, m, depth + 1);
      JoinPeaks(t, i, close, close + 1, m, depth + 1);
    case MoreMembers(_, _, _, value, comma, next, rest) =>
      SeparatorPeaks(t, e, comma, next, depth);
      MembersPeak(t, next, rest, depth);
      JoinPeaks(t, i, e, next, m, depth + 1);
      JoinPeaks(t, i, next, MembersEnd(rest), m, depth + 1 + HeightMembers(rest));
  }

  // A document passes exactly if its arrays and objects nest at most 32 deep.
  lemma DocumentsPassExactly(t: Text, start: nat, v: Tree)
    requires Document(t, start, v)
    ensures NestingWithinLimit(t) <==> Height(v) <= JSON_DOCUMENT_MAX_DEPTH
  {
    hide InSync, Derives, Spaces;
    assert InSync(t, 0, 0) by {
      Begins(t);
    }
    SpacesPeak(t, 0, start, 0);
    ValuePeaks(t, start, v, 0);
    SpacesPeak(t, End(start, v), |t|, 0);
    JoinPeaks(t, 0, start, End(start, v), 0, Height(v));
    JoinPeaks(t, 0, End(start, v), |t|, Height(v), 0);
  }

  lemma Begins(t: Text)
    ensures InSync(t, 0, 0)
  {
  }
}
