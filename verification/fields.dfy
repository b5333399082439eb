/**
  The ballot-text fields of the entry forms: `SchulzeVoteField.clean` (a
  ranking such as "1, 2;3"), `GroupOrderField.clean` (space-separated,
  pairwise distinct positions) and the bound check of `CurrencyField.clean`.
  The text handed to `clean` is the value Django's `CharField.clean` returns;
  every field here is created with `required=False`, so blank text reaches
  the field's own code.
 */
module Fields {
  import opened Wrappers
  import opened Text

  /** The ValidationError cases of the three fields. */
  datatype FieldError =
    | NotAnInteger(token: string)
    | NegativeValue(value: int)
    | WrongCount(count: nat)
    | NotUnique
    | NoValidCurrency
    | CurrencyOutOfRange(value: int)

  /** `re.compile(r'[ /;,]')`: a Schulze ranking may be separated by any of these. */
  const SchulzeSeparators: set<char> := {' ', '/', ';', ','}

  /** `str.split(' ')`: group positions are separated by single spaces only. */
  const PositionSeparators: set<char> := {' '}

  // ---------------------------------------------------------------------
  // The token loop both parsers run.

  /**
    One piece of the split text, as the loop body treats it: a blank piece
    is skipped (None), otherwise it must be a non-negative integer.
   */
  function ParsePiece(piece: string): Result<Option<nat>, FieldError> {
    var s := Strip(piece);
    if s == [] then Success(None)
    else match PyInt(s)
      case None => Failure(NotAnInteger(s))
      case Some(v) => if v < 0 then Failure(NegativeValue(v)) else Success(Some(v))
  }

  /**
    The loop over all pieces: the values in order, or the error of the first
    piece that is not a non-negative integer.
   */
  function ParsePieces(pieces: seq<string>): Result<seq<nat>, FieldError> {
    if |pieces| == 0 then Success([])
    else match ParsePieces(pieces[..|pieces| - 1])
      case Failure(e) => Failure(e)
      case Success(prefix) =>
        match ParsePiece(pieces[|pieces| - 1])
        case Failure(e) => Failure(e)
        case Success(None) => Success(prefix)
        case Success(Some(v)) => Success(prefix + [v])
  }

  /** The non-blank pieces, stripped: the tokens the loop tries to read as integers. */
  function Tokens(pieces: seq<string>): (r: seq<string>)
    ensures forall k :: 0 <= k < |r| ==> Strip(r[k]) == r[k] && r[k] != []
  {
    if |pieces| == 0 then []
    else
      var s := Strip(pieces[|pieces| - 1]);
      StripIdempotent(pieces[|pieces| - 1]);
      Tokens(pieces[..|pieces| - 1]) + (if s == [] then [] else [s])
  }

  lemma StripIdempotent(s: string)
    ensures Strip(Strip(s)) == Strip(s)
  {
    if Strip(s) != [] {
      StripUnchanged(Strip(s));
    }
  }

  /** A token the loop accepts. */
  predicate ValidToken(t: string) {
    PyInt(t).Some? && PyInt(t).value >= 0
  }

  predicate AllValid(tokens: seq<string>) {
    forall k :: 0 <= k < |tokens| ==> ValidToken(tokens[k])
  }

  /** `values` are the integers the tokens spell, one per token, in order. */
  predicate ValuesOf(tokens: seq<string>, values: seq<nat>) {
    |values| == |tokens| && forall k :: 0 <= k < |tokens| ==> PyInt(tokens[k]) == Some(values[k] as int)
  }

  lemma ParsePieceMeaning(piece: string)
    ensures Strip(piece) == [] ==> ParsePiece(piece) == Success(None)
    ensures Strip(piece) != [] ==> (ParsePiece(piece).Success? <==> ValidToken(Strip(piece)))
    ensures Strip(piece) != [] && ParsePiece(piece).Success? ==>
      ParsePiece(piece).value.Some? && PyInt(Strip(piece)) == Some(ParsePiece(piece).value.value as int)
  {
  }

  lemma AllValidAppend(tokens: seq<string>, t: string)
    ensures AllValid(tokens + [t]) <==> AllValid(tokens) && ValidToken(t)
  {
    var all := tokens + [t];
    if AllValid(all) {
      forall k | 0 <= k < |tokens| ensures ValidToken(tokens[k]) {
        assert all[k] == tokens[k];
      }
      assert all[|tokens|] == t;
    }
  }

  lemma ValuesOfAppend(tokens: seq<string>, values: seq<nat>, t: string, v: nat)
    requires ValuesOf(tokens, values) && PyInt(t) == Some(v as int)
    ensures ValuesOf(tokens + [t], values + [v])
  {
    var all, vs := tokens + [t], values + [v];
    forall k | 0 <= k < |all| ensures PyInt(all[k]) == Some(vs[k] as int) {
      if k < |tokens| {
        assert all[k] == tokens[k] && vs[k] == values[k];
      }
    }
  }

  /** Appending a piece extends the tokens by its stripped text unless it is blank. */
  lemma ParsePiecesLast(pieces: seq<string>)
    requires |pieces| > 0
    ensures var init, s := pieces[..|pieces| - 1], Strip(pieces[|pieces| - 1]);
      && (s == [] ==> Tokens(pieces) == Tokens(init) && ParsePieces(pieces) == ParsePieces(init))
      && (s != [] ==> Tokens(pieces) == Tokens(init) + [s])
      && (s != [] && ParsePieces(init).Success? && ValidToken(s) ==>
            ParsePieces(pieces) == Success(ParsePieces(init).value + [PyInt(s).value as nat]))
      && (s != [] && !(ParsePieces(init).Success? && ValidToken(s)) ==> ParsePieces(pieces).Failure?)
  {
    ParsePieceMeaning(pieces[|pieces| - 1]);
  }

  /**
    The loop succeeds exactly when every token is a non-negative integer, and
    then yields one value per token, in token order.
   */
  lemma {:induction false} ParsePiecesMeaning(pieces: seq<string>)
    ensures ParsePieces(pieces).Success? <==> AllValid(Tokens(pieces))
    ensures ParsePieces(pieces).Success? ==> ValuesOf(Tokens(pieces), ParsePieces(pieces).value)
  {
    if |pieces| > 0 {
      var init, s := pieces[..|pieces| - 1], Strip(pieces[|pieces| - 1]);
      ParsePiecesMeaning(init);
      ParsePiecesLast(pieces);
      if s != [] {
        AllValidAppend(Tokens(init), s);
        if ParsePieces(init).Success? && ValidToken(s) {
          ValuesOfAppend(Tokens(init), ParsePieces(init).value, s, PyInt(s).value as nat);
        }
      }
    }
  }

  /** Once a prefix of the pieces has failed, the whole loop fails with that error. */
  lemma {:induction false} FailureIsFinal(pieces: seq<string>, i: nat)
    requires i <= |pieces| && ParsePieces(pieces[..i]).Failure?
    ensures ParsePieces(pieces) == ParsePieces(pieces[..i])
    decreases |pieces| - i
  {
    if i < |pieces| {
      assert pieces[..i + 1][..i] == pieces[..i];
      FailureIsFinal(pieces, i + 1);
    } else {
      assert pieces[..i] == pieces;
    }
  }

  /** One more piece after a successful prefix: the loop body's three outcomes. */
  lemma ParsePiecesStep(pieces: seq<string>, i: nat, values: seq<nat>)
    requires i < |pieces| && ParsePieces(pieces[..i]) == Success(values)
    ensures ParsePiece(pieces[i]) == Success(None) ==> ParsePieces(pieces[..i + 1]) == Success(values)
    ensures ParsePiece(pieces[i]).Success? && ParsePiece(pieces[i]).value.Some? ==>
      ParsePieces(pieces[..i + 1]) == Success(values + [ParsePiece(pieces[i]).value.value])
    ensures ParsePiece(pieces[i]).Failure? ==>
      ParsePieces(pieces[..i + 1]) == Failure(ParsePiece(pieces[i]).error)
  {
    assert pieces[..i + 1][..i] == pieces[..i];
  }

  /**
    The `for s in split` loop shared by both fields: strip each piece, skip
    blank ones, raise on a non-integer or negative token, append the rest.
   */
  method ParseTokens(pieces: seq<string>) returns (r: Result<seq<nat>, FieldError>)
    ensures r == ParsePieces(pieces)
  {
    var values: seq<nat> := [];
    for i := 0 to |pieces|
      invariant ParsePieces(pieces[..i]) == Success(values)
    {
      var piece := ReadPiece(pieces[i]);
      ParsePiecesStep(pieces, i, values);
      match piece {
        case Failure(e) =>
          r := Failure(e);
          FailureIsFinal(pieces, i + 1);
          return;
        case Success(None) =>
        case Success(Some(v)) =>
          values := values + [v];
      }
    }
    assert pieces[..|pieces|] == pieces;
    r := Success(values);
  }

  /** The body of that loop for one piece: skip it, raise, or read its value. */
  method ReadPiece(piece: string) returns (r: Result<Option<nat>, FieldError>)
    ensures r == ParsePiece(piece)
    ensures r.Success? && r.value.Some? ==> PyInt(Strip(piece)) == Some(r.value.value as int)
    ensures r.Success? && r.value.None? <==> Strip(piece) == []
  {
    var s := Strip(piece);
    if s == [] {
      return Success(None);
    }
    match PyInt(s) {
      case None =>
        r := Failure(NotAnInteger(s));
      case Some(v) =>
        if v < 0 {
          r := Failure(NegativeValue(v));
        } else {
          r := Success(Some(v));
        }
    }
  }

  // ---------------------------------------------------------------------
  // SchulzeVoteField

  /**
    What `SchulzeVoteField.clean` returns: None for blank text, otherwise the
    ranking when it has exactly `numOptions` entries.
   */
  function SchulzeVote(text: string, numOptions: int): Result<Option<seq<nat>>, FieldError> {
    var cleaned := Strip(text);
    if cleaned == [] then Success(None)
    else match ParsePieces(Split(cleaned, SchulzeSeparators))
      case Failure(e) => Failure(e)
      case Success(ranking) =>
        if |ranking| != numOptions then Failure(WrongCount(|ranking|))
        else Success(Some(ranking))
  }

  /** `SchulzeVoteField.clean` with the field's `num_options`. */
  method CleanSchulzeVote(text: string, numOptions: int) returns (r: Result<Option<seq<nat>>, FieldError>)
    ensures r == SchulzeVote(text, numOptions)
  {
    var cleaned := Strip(text);
    if cleaned == [] {
      return Success(None);
    }
    var split := Split(cleaned, SchulzeSeparators);
    var ranking := ParseTokens(split);
    if ranking.Failure? {
      return Failure(ranking.error);
    }
    if |ranking.value| != numOptions {
      return Failure(WrongCount(|ranking.value|));
    }
    r := Success(Some(ranking.value));
  }

  /** The tokens of a Schulze ballot text. */
  function SchulzeTokens(text: string): seq<string> {
    Tokens(Split(Strip(text), SchulzeSeparators))
  }

  /**
    Blank text gives None; otherwise the ballot is accepted exactly when every
    token is a non-negative integer and there are `numOptions` of them, and
    the ranking holds their values in token order.
   */
  lemma SchulzeVoteMeaning(text: string, numOptions: int)
    ensures SchulzeVote(text, numOptions) == Success(None) <==> forall i :: 0 <= i < |text| ==> IsSpace(text[i])
    ensures Strip(text) != [] ==>
      (SchulzeVote(text, numOptions).Success? <==>
        AllValid(SchulzeTokens(text)) && |SchulzeTokens(text)| == numOptions)
    ensures Strip(text) != [] && SchulzeVote(text, numOptions).Success? ==>
      SchulzeVote(text, numOptions).value.Some? &&
      ValuesOf(SchulzeTokens(text), SchulzeVote(text, numOptions).value.value)
  {
    ParsePiecesMeaning(Split(Strip(text), SchulzeSeparators));
  }

  lemma ParsePiecesAppend(pieces: seq<string>, piece: string)
    ensures Strip(piece) == [] ==> ParsePieces(pieces + [piece]) == ParsePieces(pieces)
    ensures Strip(piece) != [] && ParsePieces(pieces).Success? && ValidToken(Strip(piece)) ==>
      ParsePieces(pieces + [piece]) == Success(ParsePieces(pieces).value + [PyInt(Strip(piece)).value as nat])
  {
    assert (pieces + [piece])[..|pieces|] == pieces;
    ParsePiecesLast(pieces + [piece]);
  }

  /** The text of a number is a token the loop accepts, with that value. */
  lemma NumberToken(n: nat)
    ensures Strip(NatToString(n)) == NatToString(n) != [] && ValidToken(NatToString(n))
    ensures PyInt(NatToString(n)).value == n
  {
    NatRoundTrip(n);
  }

  /** The text of a number holds none of the Schulze separators. */
  lemma NumberHasNoSeparator(n: nat)
    ensures NoneIn(NatToString(n), SchulzeSeparators)
  {
    var s := NatToString(n);
    forall i | 0 <= i < |s| ensures s[i] !in SchulzeSeparators {
      assert IsDigit(s[i]);
    }
  }

  /** The ballot text "a, b;c" of the documented example "1, 2;3", for any three numbers. */
  function MixedText(a: nat, b: nat, c: nat): string {
    NatToString(a) + ", " + NatToString(b) + ";" + NatToString(c)
  }

  lemma SplitSemicolon(b: nat, c: nat)
    ensures Split(NatToString(b) + ";" + NatToString(c), SchulzeSeparators) == [NatToString(b), NatToString(c)]
  {
    NumberHasNoSeparator(b);
    NumberHasNoSeparator(c);
    SplitNoSeparator(NatToString(c), SchulzeSeparators);
    SplitAtSeparator(NatToString(b), ';', NatToString(c), SchulzeSeparators);
    assert NatToString(b) + [';'] + NatToString(c) == NatToString(b) + ";" + NatToString(c);
  }

  lemma SplitCommaSpace(a: nat, rest: string)
    ensures Split(NatToString(a) + ", " + rest, SchulzeSeparators) == [NatToString(a), ""] + Split(rest, SchulzeSeparators)
  {
    var sa: string := NatToString(a);
    NumberHasNoSeparator(a);
    SplitAtSeparator("", ' ', rest, SchulzeSeparators);
    assert [] + [' '] + rest == [' '] + rest;
    assert sa + [','] + ([' '] + rest) == sa + [',', ' '] + rest;
    SplitAtSeparator(sa, ',', " " + rest, SchulzeSeparators);
  }

  lemma MixedSplit(a: nat, b: nat, c: nat)
    ensures Split(MixedText(a, b, c), SchulzeSeparators) == [NatToString(a), "", NatToString(b), NatToString(c)]
  {
    var tail := NatToString(b) + ";" + NatToString(c);
    assert MixedText(a, b, c) == NatToString(a) + ", " + tail;
    SplitSemicolon(b, c);
    SplitCommaSpace(a, tail);
  }

  lemma ParsePiecesAppendNumber(pieces: seq<string>, n: nat)
    requires ParsePieces(pieces).Success?
    ensures ParsePieces(pieces + [NatToString(n)]) == Success(ParsePieces(pieces).value + [n])
  {
    NumberToken(n);
    ParsePiecesAppend(pieces, NatToString(n));
  }

  lemma ParseSingle(a: nat)
    ensures ParsePieces([NatToString(a)]) == Success([a])
  {
    var sa, none, empty := NatToString(a), [], [];
    assert ParsePieces(none) == Success(empty);
    ParsePiecesAppendNumber(none, a);
    assert none + [sa] == [sa] && empty + [a] == [a];
  }

  lemma MixedParseStart(a: nat)
    ensures ParsePieces([NatToString(a), ""]) == Success([a])
  {
    var front: seq<string> := [NatToString(a)];
    var values: seq<nat> := [a];
    ParseSingle(a);
    assert Strip("") == [];
    ParsePiecesAppend(front, "");
    assert front + [""] == [NatToString(a), ""];
  }

  lemma MixedParseMiddle(a: nat, b: nat)
    ensures ParsePieces([NatToString(a), "", NatToString(b)]) == Success([a, b])
  {
    var front: seq<string> := [NatToString(a), ""];
    var pieces := front + [NatToString(b)];
    MixedParseStart(a);
    ParsePiecesAppendNumber(front, b);
    assert ParsePieces(pieces) == Success([a] + [b]);
    assert pieces == [NatToString(a), "", NatToString(b)];
    assert [a] + [b] == [a, b];
  }

  lemma MixedParse(a: nat, b: nat, c: nat)
    ensures ParsePieces([NatToString(a), "", NatToString(b), NatToString(c)]) == Success([a, b, c])
  {
    var front: seq<string> := [NatToString(a), "", NatToString(b)];
    var pieces := front + [NatToString(c)];
    MixedParseMiddle(a, b);
    ParsePiecesAppendNumber(front, c);
    assert ParsePieces(pieces) == Success([a, b] + [c]);
    assert pieces == [NatToString(a), "", NatToString(b), NatToString(c)];
    assert [a, b] + [c] == [a, b, c];
  }

  /**
    The documented example "1, 2;3", for any three numbers: a comma, a space
    and a semicolon all separate, the empty piece between ", " is skipped.
   */
  lemma SchulzeVoteMixedSeparators(a: nat, b: nat, c: nat)
    ensures SchulzeVote(MixedText(a, b, c), 3) == Success(Some([a, b, c]))
  {
    var text := MixedText(a, b, c);
    NumberToken(a);
    NumberToken(c);
    assert text[0] == NatToString(a)[0];
    assert text[|text| - 1] == NatToString(c)[|NatToString(c)| - 1];
    StripUnchanged(text);
    MixedSplit(a, b, c);
    MixedParse(a, b, c);
  }

  /** `str(p)` for every position, the pieces `' '.join` glues together. */
  function Render(positions: seq<nat>): (r: seq<string>)
    ensures |r| == |positions|
  {
    seq(|positions|, k requires 0 <= k < |positions| => NatToString(positions[k]))
  }

  lemma {:induction false} ParseRendered(positions: seq<nat>)
    ensures ParsePieces(Render(positions)) == Success(positions)
  {
    if |positions| > 0 {
      var n := |positions|;
      assert Render(positions)[..n - 1] == Render(positions[..n - 1]);
      ParseRendered(positions[..n - 1]);
      NatRoundTrip(positions[n - 1]);
      ParsePiecesLast(Render(positions));
      assert positions[..n - 1] + [positions[n - 1]] == positions;
    }
  }

  /** The form's initial text `' '.join(str(p) ...)` is trimmed and split back into its pieces. */
  lemma RenderedText(positions: seq<nat>, seps: set<char>)
    requires |positions| >= 1 && ' ' in seps
    requires forall c :: c in seps ==> !IsDigit(c)
    ensures Strip(Join(Render(positions))) == Join(Render(positions))
    ensures Split(Join(Render(positions)), seps) == Render(positions)
  {
    var parts := Render(positions);
    JoinEdges(parts);
    var text := Join(parts);
    assert IsDigit(text[0]) && IsDigit(text[|text| - 1]);
    StripUnchanged(text);
    SplitJoin(parts, seps);
  }

  /**
    Round trip of the ballot form: cleaning the text the form renders for a
    stored ranking of non-negative positions gives that ranking back.
   */
  lemma SchulzeVoteRoundTrip(positions: seq<nat>)
    requires |positions| >= 1
    ensures SchulzeVote(Join(Render(positions)), |positions|) == Success(Some(positions))
  {
    RenderedText(positions, SchulzeSeparators);
    ParseRendered(positions);
  }

  // ---------------------------------------------------------------------
  // GroupOrderField

  /** What `GroupOrderField.clean` returns: the empty string for blank text, otherwise the order. */
  datatype GroupOrderValue = EmptyString | Order(positions: seq<nat>)

  predicate Distinct(s: seq<nat>) {
    forall i, j :: 0 <= i < j < |s| ==> s[i] != s[j]
  }

  /** `set(order)`. */
  function Elements(s: seq<nat>): set<nat> {
    set x | x in s
  }

  /** `len(order) == len(set(order))` holds exactly when the positions are pairwise distinct. */
  lemma {:induction false} DistinctBySize(s: seq<nat>)
    ensures |Elements(s)| <= |s|
    ensures |Elements(s)| == |s| <==> Distinct(s)
  {
    if |s| > 0 {
      var init, x := s[..|s| - 1], s[|s| - 1];
      DistinctBySize(init);
      assert Elements(s) == Elements(init) + {x};
      if x in init {
        assert Elements(s) == Elements(init);
        var k :| 0 <= k < |init| && init[k] == x;
        assert s[k] == s[|s| - 1];
      } else {
        assert |Elements(s)| == |Elements(init)| + 1;
        if Distinct(init) {
          forall i, j | 0 <= i < j < |s| ensures s[i] != s[j] {
            if j < |s| - 1 {
              assert s[i] == init[i] && s[j] == init[j];
            } else {
              assert s[i] == init[i];
            }
          }
        }
        if Distinct(s) {
          forall i, j | 0 <= i < j < |init| ensures init[i] != init[j] {
            assert init[i] == s[i] && init[j] == s[j];
          }
        }
      }
    }
  }

  function GroupOrder(text: string, numVotings: int): Result<GroupOrderValue, FieldError> {
    var cleaned := Strip(text);
    if cleaned == [] then Success(EmptyString)
    else match ParsePieces(Split(cleaned, PositionSeparators))
      case Failure(e) => Failure(e)
      case Success(order) =>
        if |order| != numVotings then Failure(WrongCount(|order|))
        else if |order| != |Elements(order)| then Failure(NotUnique)
        else Success(Order(order))
  }

  /** `GroupOrderField.clean` with the field's `num_votings`. */
  method CleanGroupOrder(text: string, numVotings: int) returns (r: Result<GroupOrderValue, FieldError>)
    ensures r == GroupOrder(text, numVotings)
  {
    var cleaned := Strip(text);
    if cleaned == [] {
      return Success(EmptyString);
    }
    var split := Split(cleaned, PositionSeparators);
    var order := ParseTokens(split);
    if order.Failure? {
      return Failure(order.error);
    }
    if |order.value| != numVotings {
      return Failure(WrongCount(|order.value|));
    }
    if |order.value| != |Elements(order.value)| {
      return Failure(NotUnique);
    }
    r := Success(Order(order.value));
  }

  /** The tokens of a group-order text. */
  function PositionTokens(text: string): seq<string> {
    Tokens(Split(Strip(text), PositionSeparators))
  }

  /**
    Blank text gives the empty string; otherwise the order is accepted exactly
    when there are `numVotings` tokens, all non-negative integers and pairwise
    distinct, and it holds their values in token order.
   */
  lemma GroupOrderMeaning(text: string, numVotings: int)
    ensures GroupOrder(text, numVotings) == Success(EmptyString) <==> forall i :: 0 <= i < |text| ==> IsSpace(text[i])
    ensures Strip(text) != [] ==>
      (GroupOrder(text, numVotings).Success? <==>
        AllValid(PositionTokens(text)) && |PositionTokens(text)| == numVotings &&
        DistinctValues(PositionTokens(text)))
    ensures Strip(text) != [] && GroupOrder(text, numVotings).Success? ==>
      GroupOrder(text, numVotings).value.Order? &&
      Distinct(GroupOrder(text, numVotings).value.positions) &&
      ValuesOf(PositionTokens(text), GroupOrder(text, numVotings).value.positions)
  {
    var pieces := Split(Strip(text), PositionSeparators);
    ParsePiecesMeaning(pieces);
    if ParsePieces(pieces).Success? {
      DistinctBySize(ParsePieces(pieces).value);
      DistinctTokens(Tokens(pieces), ParsePieces(pieces).value);
    }
  }

  /** No two tokens spell the same number. */
  predicate DistinctValues(tokens: seq<string>) {
    forall i, j :: 0 <= i < j < |tokens| ==> PyInt(tokens[i]) != PyInt(tokens[j])
  }

  lemma DistinctTokens(tokens: seq<string>, values: seq<nat>)
    requires ValuesOf(tokens, values)
    ensures Distinct(values) <==> DistinctValues(tokens)
  {
    if !Distinct(values) {
      var i, j :| 0 <= i < j < |values| && values[i] == values[j];
      assert PyInt(tokens[i]) == PyInt(tokens[j]);
    }
    if !DistinctValues(tokens) {
      var i, j :| 0 <= i < j < |tokens| && PyInt(tokens[i]) == PyInt(tokens[j]);
      assert values[i] == values[j];
    }
  }

  /**
    A rendered order with a repeated position is refused as not unique even
    when the number of positions is right (for example "0 0" for two votings).
   */
  lemma GroupOrderRepeatedPosition(order: seq<nat>)
    requires |order| >= 1 && !Distinct(order)
    ensures GroupOrder(Join(Render(order)), |order|) == Failure(NotUnique)
  {
    RenderedText(order, PositionSeparators);
    ParseRendered(order);
    DistinctBySize(order);
  }

  /**
    Round trip of the reorder form: cleaning `' '.join(map(str, current_order))`
    gives `current_order` back when its entries are distinct.
   */
  lemma GroupOrderRoundTrip(order: seq<nat>)
    requires |order| >= 1 && Distinct(order)
    ensures GroupOrder(Join(Render(order)), |order|) == Success(Order(order))
  {
    RenderedText(order, PositionSeparators);
    ParseRendered(order);
    DistinctBySize(order);
  }

  // ---------------------------------------------------------------------
  // CurrencyField

  /** A parsed amount (in the smallest unit) and its currency, as the currency parser yields them. */
  datatype Amount = Amount(value: int, currency: string)

  /**
    `CurrencyField.clean`: blank text gives None; `parsed` is what the
    currency parser made of the stripped text (None when it gave None or
    raised); the amount must lie in [0, max_value].
   */
  function CleanCurrency(text: string, parsed: Option<Amount>, maxValue: int): (r: Result<Option<Amount>, FieldError>)
    ensures Strip(text) == [] <==> r == Success(None)
    ensures Strip(text) != [] ==>
      (r.Success? <==> parsed.Some? && 0 <= parsed.value.value <= maxValue)
    ensures r.Success? && r.value.Some? ==> r.value == parsed && 0 <= r.value.value.value <= maxValue
    ensures r.Failure? ==> r.error in {NoValidCurrency, CurrencyOutOfRange(if parsed.Some? then parsed.value.value else 0)}
  {
    if Strip(text) == [] then Success(None)
    else match parsed
      case None => Failure(NoValidCurrency)
      case Some(a) =>
        if a.value < 0 || a.value > maxValue then Failure(CurrencyOutOfRange(a.value))
        else Success(Some(a))
  }
}
