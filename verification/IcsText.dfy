/** iCalendar text: physical lines, unfolding (section 3.1 of RFC 5545), and the loop that
    collects events under the whole-feed cap. */
module IcsText {
  import opened Options
  import opened Selection

  type Line = string

  // ----- Physical lines -----

  predicate IsBreak(c: char) {
    c == '\r' || c == '\n'
  }

  /** Splitting at CRLF, CR or LF. */
  function SplitLines(text: string): (lines: seq<Line>)
    ensures lines != []
  {
    if text == [] then [""]
    else if text[0] == '\n' || (text[0] == '\r' && (|text| == 1 || text[1] != '\n')) then [""] + SplitLines(text[1..])
    else if text[0] == '\r' then [""] + SplitLines(text[2..])
    else
      var rest := SplitLines(text[1..]);
      [[text[0]] + rest[0]] + rest[1..]
  }

  predicate Plain(line: Line) {
    forall i :: 0 <= i < |line| ==> !IsBreak(line[i])
  }

  datatype Break = CRLF | LF | CR {
    function Text(): string {
      match this
      case CRLF => "\r\n"
      case LF => "\n"
      case CR => "\r"
    }
  }

  /** The lines with these breaks between them. */
  function Join(lines: seq<Line>, breaks: seq<Break>): string
    requires |lines| == |breaks| + 1
  {
    if breaks == [] then lines[0] else lines[0] + breaks[0].Text() + Join(lines[1..], breaks[1..])
  }

  /** A CR is not right before a LF: those two together are one break. */
  predicate Apart(lines: seq<Line>, breaks: seq<Break>)
    requires |lines| == |breaks| + 1
  {
    forall i, j :: 0 <= i && j == i + 1 < |breaks| ==> !(breaks[i] == CR && lines[j] == "" && breaks[j] == LF)
  }

  lemma StartOfJoin(lines: seq<Line>, breaks: seq<Break>)
    requires |lines| == |breaks| + 1 && Plain(lines[0])
    ensures var text := Join(lines, breaks);
            text != "" && text[0] == '\n' ==> lines[0] == "" && breaks != [] && breaks[0] == LF
  {
    if lines[0] != "" {
      assert Join(lines, breaks)[0] == lines[0][0];
    }
  }

  lemma SplitAtBreak(b: Break, rest: string)
    requires b == CR && rest != "" ==> rest[0] != '\n'
    ensures SplitLines(b.Text() + rest) == [""] + SplitLines(rest)
  {
    var text := b.Text() + rest;
    match b
    case CRLF => assert text[2..] == rest && text[0] == '\r' && text[1] == '\n';
    case LF => assert text[1..] == rest;
    case CR => assert text[1..] == rest && (rest != "" ==> text[1] == rest[0]);
  }

  lemma SplitAtChar(c: char, rest: string)
    requires !IsBreak(c)
    ensures SplitLines([c] + rest) == [[c] + SplitLines(rest)[0]] + SplitLines(rest)[1..]
  {
    assert ([c] + rest)[1..] == rest;
  }

  lemma ShorterJoin(lines: seq<Line>, breaks: seq<Break>)
    requires |lines| == |breaks| + 1 && lines[0] != ""
    ensures var shorter := [lines[0][1..]] + lines[1..];
            Join(lines, breaks) == [lines[0][0]] + Join(shorter, breaks)
  {
    assert lines[0] == [lines[0][0]] + lines[0][1..];
    assert ([lines[0][1..]] + lines[1..])[1..] == lines[1..];
  }

  /** Splitting undoes joining, whichever of the three breaks stands between two lines. */
  lemma {:induction false} SplitJoin(lines: seq<Line>, breaks: seq<Break>)
    requires |lines| == |breaks| + 1 && Apart(lines, breaks) && forall i :: 0 <= i < |lines| ==> Plain(lines[i])
    ensures SplitLines(Join(lines, breaks)) == lines
    decreases |lines|, |lines[0]|
  {
    if lines[0] != "" {
      var shorter := [lines[0][1..]] + lines[1..];
      ShorterJoin(lines, breaks);
      assert forall j :: 1 <= j < |lines| ==> shorter[j] == lines[j];
      SplitJoin(shorter, breaks);
      SplitAtChar(lines[0][0], Join(shorter, breaks));
      assert lines[0] == [lines[0][0]] + shorter[0];
    } else if breaks != [] {
      SplitJoin(lines[1..], breaks[1..]);
      StartOfJoin(lines[1..], breaks[1..]);
      SplitAtBreak(breaks[0], Join(lines[1..], breaks[1..]));
      assert Join(lines, breaks) == breaks[0].Text() + Join(lines[1..], breaks[1..]);
    }
  }

  // ----- Unfolding -----

  predicate Continues(raw: Line) {
    |raw| > 0 && (raw[0] == ' ' || raw[0] == '\t')
  }

  /** One more physical line, onto the lines so far. */
  function Absorb(lines: seq<Line>, raw: Line): seq<Line> {
    if Continues(raw) && lines != [] then lines[|lines| - 1 := lines[|lines| - 1] + raw[1..]]
    else lines + [raw]
  }

  function Unfolded(raws: seq<Line>): seq<Line> {
    if raws == [] then [] else Absorb(Unfolded(raws[..|raws| - 1]), raws[|raws| - 1])
  }

  lemma UnfoldedStep(raws: seq<Line>, raw: Line)
    ensures Unfolded(raws + [raw]) == Absorb(Unfolded(raws), raw)
  {
    assert (raws + [raw])[..|raws|] == raws;
  }

  method Unfold(text: string) returns (lines: seq<Line>)
    ensures lines == Unfolded(SplitLines(text))
  {
    lines := [];
    var raws := SplitLines(text);
    for i := 0 to |raws|
      invariant lines == Unfolded(raws[..i])
    {
      UnfoldedStep(raws[..i], raws[i]);
      assert raws[..i + 1] == raws[..i] + [raws[i]];
      if Continues(raws[i]) && lines != [] {
        lines := lines[|lines| - 1 := lines[|lines| - 1] + raws[i][1..]];
      } else {
        lines := lines + [raws[i]];
      }
    }
    assert raws[..|raws|] == raws;
  }

  function Flat(lines: seq<Line>): string {
    if lines == [] then "" else Flat(lines[..|lines| - 1]) + lines[|lines| - 1]
  }

  /** The physical lines without the blank that marks a continuation; the first line continues nothing. */
  function Stripped(raws: seq<Line>): seq<Line> {
    if raws == [] then []
    else
      var last := raws[|raws| - 1];
      Stripped(raws[..|raws| - 1]) + [if |raws| > 1 && Continues(last) then last[1..] else last]
  }

  /** How many physical lines start a logical one. */
  function Starts(raws: seq<Line>): nat {
    if raws == [] then 0
    else Starts(raws[..|raws| - 1]) + if |raws| > 1 && Continues(raws[|raws| - 1]) then 0 else 1
  }

  lemma FlatAppend(lines: seq<Line>, line: Line)
    ensures Flat(lines + [line]) == Flat(lines) + line
  {
    assert (lines + [line])[..|lines|] == lines;
  }

  lemma FlatAbsorb(lines: seq<Line>, more: Line)
    requires lines != []
    ensures Flat(lines[|lines| - 1 := lines[|lines| - 1] + more]) == Flat(lines) + more
  {
    var init, last := lines[..|lines| - 1], lines[|lines| - 1];
    assert lines == init + [last] && lines[|lines| - 1 := last + more] == init + [last + more];
    FlatAppend(init, last);
    FlatAppend(init, last + more);
  }

  /** Unfolding loses and adds no text but the blanks before continuations, and every line that does not
      continue another starts a logical line of its own. */
  lemma {:induction false} UnfoldKeepsText(raws: seq<Line>)
    ensures Flat(Unfolded(raws)) == Flat(Stripped(raws))
    ensures |Unfolded(raws)| == Starts(raws)
  {
    if raws != [] {
      var init, last := raws[..|raws| - 1], raws[|raws| - 1];
      UnfoldKeepsText(init);
      assert raws == init + [last];
      UnfoldedStep(init, last);
      NotEmptied(init);
      FlatAppend(Unfolded(init), last);
      if init != [] {
        FlatAbsorb(Unfolded(init), if Continues(last) then last[1..] else "");
      }
      FlatAppend(Stripped(init), if |raws| > 1 && Continues(last) then last[1..] else last);
    }
  }

  lemma {:induction false} NotEmptied(raws: seq<Line>)
    ensures Unfolded(raws) == [] <==> raws == []
  {
    if raws != [] {
      NotEmptied(raws[..|raws| - 1]);
    }
  }

  // ----- Folding, its inverse -----

  /** A piece of a logical line, and whether it goes behind a tab or a space (the first behind neither). */
  datatype Piece = Piece(tab: bool, text: Line)

  function Concat(pieces: seq<Piece>): Line {
    if pieces == [] then "" else Concat(pieces[..|pieces| - 1]) + pieces[|pieces| - 1].text
  }

  /** A physical line that continues the one before. */
  function Behind(piece: Piece): Line {
    [if piece.tab then '\t' else ' '] + piece.text
  }

  /** A logical line cut into pieces, each later piece behind its own space or tab. */
  function FoldOne(pieces: seq<Piece>): seq<Line> {
    if pieces == [] then []
    else if |pieces| == 1 then [pieces[0].text]
    else FoldOne(pieces[..|pieces| - 1]) + [Behind(pieces[|pieces| - 1])]
  }

  function Fold(all: seq<seq<Piece>>): seq<Line> {
    if all == [] then [] else Fold(all[..|all| - 1]) + FoldOne(all[|all| - 1])
  }

  predicate Foldable(pieces: seq<Piece>) {
    pieces != [] && !Continues(pieces[0].text) && forall i :: 0 <= i < |pieces| ==> Plain(pieces[i].text)
  }

  lemma AbsorbPiece(lines: seq<Line>, line: Line, piece: Piece)
    ensures Absorb(lines + [line], Behind(piece)) == lines + [line + piece.text]
  {
    assert Behind(piece)[1..] == piece.text;
  }

  lemma UnfoldNext(raws: seq<Line>, lines: seq<Line>, line: Line, piece: Piece)
    requires Unfolded(raws) == lines + [line]
    ensures Unfolded(raws + [Behind(piece)]) == lines + [line + piece.text]
  {
    UnfoldedStep(raws, Behind(piece));
    AbsorbPiece(lines, line, piece);
  }

  lemma FoldedSoFar(pieces: seq<Piece>)
    requires |pieces| > 1
    ensures var init, piece := pieces[..|pieces| - 1], pieces[|pieces| - 1];
            && FoldOne(pieces) == FoldOne(init) + [Behind(piece)]
            && Concat(pieces) == Concat(init) + piece.text
  {
  }

  lemma OnePiece(pieces: seq<Piece>)
    requires |pieces| == 1
    ensures FoldOne(pieces) == [pieces[0].text] && Concat(pieces) == pieces[0].text
  {
    assert Concat(pieces[..0]) == "";
  }

  lemma {:induction false} UnfoldOne(before: seq<Line>, pieces: seq<Piece>)
    requires Foldable(pieces)
    ensures Unfolded(before + FoldOne(pieces)) == Unfolded(before) + [Concat(pieces)]
    decreases |pieces|
  {
    if |pieces| == 1 {
      OnePiece(pieces);
      UnfoldedStep(before, pieces[0].text);
    } else {
      var init, piece := pieces[..|pieces| - 1], pieces[|pieces| - 1];
      UnfoldOne(before, init);
      FoldedSoFar(pieces);
      UnfoldNext(before + FoldOne(init), Unfolded(before), Concat(init), piece);
      assert before + FoldOne(pieces) == (before + FoldOne(init)) + [Behind(piece)];
    }
  }

  lemma {:induction false} FoldPlain(pieces: seq<Piece>)
    requires pieces != [] && forall i :: 0 <= i < |pieces| ==> Plain(pieces[i].text)
    ensures FoldOne(pieces) != [] && forall i :: 0 <= i < |FoldOne(pieces)| ==> Plain(FoldOne(pieces)[i])
  {
    if |pieces| > 1 {
      FoldPlain(pieces[..|pieces| - 1]);
    }
  }

  /** The logical lines. */
  function Logical(all: seq<seq<Piece>>): seq<Line> {
    if all == [] then [] else Logical(all[..|all| - 1]) + [Concat(all[|all| - 1])]
  }

  lemma {:induction false} UnfoldAll(all: seq<seq<Piece>>)
    requires forall i :: 0 <= i < |all| ==> Foldable(all[i])
    ensures Unfolded(Fold(all)) == Logical(all)
  {
    if all != [] {
      var init := all[..|all| - 1];
      UnfoldAll(init);
      UnfoldOne(Fold(init), all[|all| - 1]);
    }
  }

  lemma {:induction false} FoldAllPlain(all: seq<seq<Piece>>)
    requires forall i :: 0 <= i < |all| ==> Foldable(all[i])
    ensures forall i :: 0 <= i < |Fold(all)| ==> Plain(Fold(all)[i])
    ensures all != [] ==> Fold(all) != []
  {
    if all != [] {
      FoldAllPlain(all[..|all| - 1]);
      FoldPlain(all[|all| - 1]);
    }
  }

  lemma {:induction false} LogicalAt(all: seq<seq<Piece>>)
    ensures Logical(all) == seq(|all|, i requires 0 <= i < |all| => Concat(all[i]))
  {
    if all != [] {
      LogicalAt(all[..|all| - 1]);
    }
  }

  /** However the logical lines of a feed were cut, folded and broken, unfolding gives them back. */
  lemma FoldRoundTrip(all: seq<seq<Piece>>, breaks: seq<Break>)
    requires all != [] && forall i :: 0 <= i < |all| ==> Foldable(all[i])
    requires |Fold(all)| == |breaks| + 1 && Apart(Fold(all), breaks)
    ensures Unfolded(SplitLines(Join(Fold(all), breaks))) == seq(|all|, i requires 0 <= i < |all| => Concat(all[i]))
  {
    UnfoldAll(all);
    FoldAllPlain(all);
    LogicalAt(all);
    SplitJoin(Fold(all), breaks);
  }

  /** Broken by CRLF throughout, as a feed should be, no lines run together. */
  lemma ProperFeed(all: seq<seq<Piece>>, breaks: seq<Break>)
    requires |Fold(all)| == |breaks| + 1 && forall i :: 0 <= i < |breaks| ==> breaks[i] == CRLF
    ensures Apart(Fold(all), breaks)
  {
  }

  // ----- Collecting events -----

  const FEED_MAX_EVENTS: nat := 2000

  /** What a VEVENT has gathered so far; `E` stands for the parsed event. */
  datatype Draft = Draft(props: map<string, string>)

  datatype Token = Begin | End | Prop(key: string, value: string) | Noise

  datatype Collected<E> = Collected(current: Option<Draft>, events: seq<E>)

  /** One line, without the cap; `finish` gives the events of a closed draft (none if undated). */
  function Step<E>(c: Collected<E>, t: Token, finish: Draft -> seq<E>): Collected<E> {
    match t
    case Begin => c.(current := Some(Draft(map[])))
    case End => Collected(None, if c.current.Some? then c.events + finish(c.current.value) else c.events)
    case Prop(k, v) =>
      if c.current.Some? then c.(current := Some(Draft(c.current.value.props[k := v]))) else c
    case Noise => c
  }

  function Uncapped<E>(tokens: seq<Token>, finish: Draft -> seq<E>): Collected<E> {
    if tokens == [] then Collected(None, [])
    else Step(Uncapped(tokens[..|tokens| - 1], finish), tokens[|tokens| - 1], finish)
  }

  /** The BEGIN at `b` has opened a draft that nothing has closed or replaced. */
  ghost predicate OpensAt(tokens: seq<Token>, b: nat) {
    b < |tokens| && tokens[b] == Begin && forall j :: b < j < |tokens| ==> tokens[j] != Begin && tokens[j] != End
  }

  /** `value` is the last one given for `key` after `b`. */
  ghost predicate IsLatest(tokens: seq<Token>, b: nat, key: string, value: string) {
    exists j :: LatestAt(tokens, b, key, value, j)
  }

  ghost predicate LatestAt(tokens: seq<Token>, b: nat, key: string, value: string, j: nat) {
    b < j < |tokens| && tokens[j] == Prop(key, value)
    && forall l :: j < l < |tokens| ==> !(tokens[l].Prop? && tokens[l].key == key)
  }

  lemma OpensNext(tokens: seq<Token>, t: Token, b: nat)
    ensures OpensAt(tokens + [t], b) <==>
              if t == Begin then b == |tokens| else t != End && OpensAt(tokens, b)
  {
    var all := tokens + [t];
    assert all[|tokens|] == t;
    assert forall j :: 0 <= j < |tokens| ==> all[j] == tokens[j];
  }

  lemma LatestNext(tokens: seq<Token>, t: Token, b: nat, key: string, value: string)
    requires b < |tokens|
    ensures IsLatest(tokens + [t], b, key, value) <==>
              if t.Prop? && t.key == key then t.value == value else IsLatest(tokens, b, key, value)
  {
    var all := tokens + [t];
    assert all[|tokens|] == t;
    assert forall j :: 0 <= j < |tokens| ==> all[j] == tokens[j];
    if t == Prop(key, value) {
      assert LatestAt(all, b, key, value, |tokens|);
    }
    if j: nat :| LatestAt(tokens, b, key, value, j) {
      if !(t.Prop? && t.key == key) {
        assert LatestAt(all, b, key, value, j);
      }
    }
    if j: nat :| LatestAt(all, b, key, value, j) {
      assert j < |tokens| ==> LatestAt(tokens, b, key, value, j);
    }
  }

  /** The draft holds what the lines since the latest BEGIN say: for each key its last value. */
  ghost predicate Holds(d: Draft, tokens: seq<Token>, b: nat) {
    forall key, value :: (key in d.props && d.props[key] == value) <==> IsLatest(tokens, b, key, value)
  }

  lemma DraftNext<E>(tokens: seq<Token>, t: Token, finish: Draft -> seq<E>, b: nat)
    requires var c := Uncapped(tokens, finish);
             OpensAt(tokens, b) ==> c.current.Some? && Holds(c.current.value, tokens, b)
    requires OpensAt(tokens + [t], b)
    ensures var c := Step(Uncapped(tokens, finish), t, finish);
            c.current.Some? && Holds(c.current.value, tokens + [t], b)
  {
    OpensNext(tokens, t, b);
    var d := Step(Uncapped(tokens, finish), t, finish).current.value;
    forall key, value ensures (key in d.props && d.props[key] == value) <==> IsLatest(tokens + [t], b, key, value) {
      if t != Begin {
        LatestNext(tokens, t, b, key, value);
      }
    }
  }

  /** A draft is open exactly since the latest BEGIN not followed by an END, and holds the last value of each
      key since then; so that is what the END that closes it hands over. */
  lemma {:induction false} DraftIsLatest<E>(tokens: seq<Token>, finish: Draft -> seq<E>)
    ensures var c := Uncapped(tokens, finish);
            && (c.current.Some? <==> exists b :: OpensAt(tokens, b))
            && (forall b :: OpensAt(tokens, b) ==> Holds(c.current.value, tokens, b))
            && Uncapped(tokens + [End], finish).events
               == c.events + (if c.current.Some? then finish(c.current.value) else [])
            && forall t :: t != End ==> Uncapped(tokens + [t], finish).events == c.events
  {
    if tokens != [] {
      var init, t := tokens[..|tokens| - 1], tokens[|tokens| - 1];
      assert tokens == init + [t];
      DraftIsLatest(init, finish);
      forall b: nat ensures OpensAt(tokens, b) <==> if t == Begin then b == |init| else t != End && OpensAt(init, b) {
        OpensNext(init, t, b);
      }
      forall b: nat | OpensAt(tokens, b)
        ensures Uncapped(tokens, finish).current.Some? && Holds(Uncapped(tokens, finish).current.value, tokens, b)
      {
        DraftNext(init, t, finish, b);
      }
      if t == Begin {
        assert OpensAt(tokens, |init|);
      } else if t != End && Uncapped(init, finish).current.Some? {
        var b: nat :| OpensAt(init, b);
        assert OpensAt(tokens, b);
      }
    }
    forall t: Token ensures Uncapped(tokens + [t], finish) == Step(Uncapped(tokens, finish), t, finish) {
      assert (tokens + [t])[..|tokens|] == tokens;
    }
  }

  lemma {:induction false} EventsOnlyGrow<E>(tokens: seq<Token>, n: nat, finish: Draft -> seq<E>)
    requires n <= |tokens|
    ensures Uncapped(tokens[..n], finish).events <= Uncapped(tokens, finish).events
    decreases |tokens| - n
  {
    if n == |tokens| {
      assert tokens[..n] == tokens;
    } else {
      EventsOnlyGrow(tokens, n + 1, finish);
      assert tokens[..n + 1][..n] == tokens[..n];
    }
  }

  /** Stopping at the cap gives the first events of the whole feed, and never more than the cap. */
  method ParseTokens<E>(tokens: seq<Token>, finish: Draft -> seq<E>) returns (events: seq<E>)
    ensures events == Cut(Uncapped(tokens, finish).events, FEED_MAX_EVENTS)
    ensures |events| <= FEED_MAX_EVENTS
  {
    var current: Option<Draft> := None;
    events := [];
    for i := 0 to |tokens|
      invariant Collected(current, events) == Uncapped(tokens[..i], finish)
      invariant |events| < FEED_MAX_EVENTS
    {
      assert tokens[..i + 1][..i] == tokens[..i];
      EventsOnlyGrow(tokens, i + 1, finish);
      match tokens[i] {
        case Begin => current := Some(Draft(map[]));
        case End =>
          if current.Some? {
            events := events + finish(current.value);
          }
          current := None;
          if |events| >= FEED_MAX_EVENTS {
            events := events[..FEED_MAX_EVENTS];
            return;
          }
        case Prop(k, v) =>
          if current.Some? {
            current := Some(Draft(current.value.props[k := v]));
          }
        case Noise =>
      }
    }
    assert tokens[..|tokens|] == tokens;
  }
}
