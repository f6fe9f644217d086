/** Whether MySQL reads a rendered parameter as the string or name it stands for: the whole
    text is read from its beginning, with quotes, names, comments and adjacent strings, sections
    11.1.1 (String Literals), 11.2 (Schema Object Names) and 11.7 (Comments) of the MySQL 8.0
    Reference Manual. */
module SqlReading {
  import opened Common
  import opened SqlTemplate

  /** Where the reader stands. */
  datatype Mode =
    | Plain
    | Word
    | Radix // after an x or b that may open a hexadecimal or bit literal
    | InRadix
    | InText(quote: char)
    | Backslash(quote: char)
    | Closing(quote: char) // after a quote that ends the string unless it is doubled
    | InName
    | ClosingName // after a backquote that ends the name unless it is doubled
    | Line
    | Block
    | BlockStar
    | Dash
    | DashDash
    | Slash

  /** What a character does to the value that is being read: a string, which may go on after
      blanks and comments, or a name. */
  datatype Effect =
    | Keep
    | Drop // the value is complete
    | Enter // a string begins, or goes on after a gap
    | DropEnter // a value begins after another
    | Append(more: string)
    | Double(quote: char)
    | Close

  predicate IsQuote(c: char) {
    c == '\'' || c == '"'
  }

  predicate IsBlank(c: char) {
    c == ' ' || '\t' <= c <= '\r'
  }

  predicate IsControl(c: char) {
    c < ' ' || c as int == 127
  }

  predicate IsWord(c: char) {
    '0' <= c <= '9' || 'a' <= c <= 'z' || 'A' <= c <= 'Z' || c == '_' || c == '$' || c as int >= 128
  }

  function Begin(c: char): (Mode, Effect) {
    if IsQuote(c) then (InText(c), Enter)
    else if IsBlank(c) then (Plain, Keep)
    else if c == '#' then (Line, Keep)
    else if c == '-' then (Dash, Keep)
    else if c == '/' then (Slash, Keep)
    else if c == '`' then (InName, DropEnter)
    else if c in "xXbB" then (Radix, Drop)
    else if IsWord(c) || c == '.' || c == '@' then (Word, Drop)
    else (Plain, Drop)
  }

  function Dropped(t: (Mode, Effect)): (Mode, Effect) {
    (t.0, if t.1 == Enter || t.1 == DropEnter then DropEnter else Drop)
  }

  function Turn(m: Mode, c: char): (Mode, Effect) {
    match m
    case Plain => Begin(c)
    case Word => if IsWord(c) then (Word, Drop) else Dropped(Begin(c))
    case Radix => if c == '\'' then (InRadix, Drop) else if IsWord(c) then (Word, Drop) else Dropped(Begin(c))
    case InRadix => (if c == '\'' then Plain else InRadix, Drop)
    case InText(q) =>
      if c == q then (Closing(q), Close) else if c == '\\' then (Backslash(q), Keep) else (m, Append([c]))
    case Backslash(q) => (InText(q), Append(Unescaped(c)))
    case Closing(q) => if c == q then (InText(q), Double(q)) else Begin(c)
    case InName => if c == '`' then (ClosingName, Close) else (InName, Append([c]))
    case ClosingName => if c == '`' then (InName, Double('`')) else Dropped(Begin(c))
    case Line => (if c == '\n' then Plain else Line, Keep)
    case Block => (if c == '*' then BlockStar else Block, Keep)
    case BlockStar => (if c == '/' then Plain else if c == '*' then BlockStar else Block, Keep)
    case Dash => if c == '-' then (DashDash, Keep) else Dropped(Begin(c))
    case DashDash =>
      if c == '\n' then (Plain, Keep)
      else if IsBlank(c) || IsControl(c) then (Line, Keep)
      else if c == '-' then (DashDash, Drop)
      else Dropped(Begin(c))
    case Slash => if c == '*' then (Block, Keep) else Dropped(Begin(c))
  }

  // ---- the reader ----

  /** The value of a string or of a quoted name, and where its text begins and, once it is
      closed, ends. The text of a name, and no other, begins with a backquote. */
  datatype Piece = Piece(start: nat, end: nat, value: string)

  datatype Reader = Reader(mode: Mode, at: nat, cur: Option<Piece>, found: set<Piece>)

  const FRESH := Reader(Plain, 0, None, {})

  ghost function Flushed(r: Reader): Reader {
    if r.cur.Some? then r.(cur := None, found := r.found + {r.cur.value}) else r
  }

  ghost function Opened(r: Reader): Reader {
    r.(cur := Some(if r.cur.Some? then r.cur.value.(end := r.cur.value.start) else Piece(r.at, r.at, "")))
  }

  ghost function Longer(r: Reader, more: string): Reader {
    if r.cur.Some?
    then r.(cur := Some(Piece(r.cur.value.start, r.cur.value.start, r.cur.value.value + more)))
    else r
  }

  ghost function Affected(r: Reader, e: Effect): Reader {
    match e
    case Keep => r
    case Drop => Flushed(r)
    case Enter => Opened(r)
    case DropEnter => Opened(Flushed(r))
    case Append(more) => Longer(r, more)
    case Double(q) => Longer(r, [q])
    case Close => if r.cur.Some? then r.(cur := Some(r.cur.value.(end := r.at + 1))) else r
  }

  ghost function Step(r: Reader, c: char): Reader {
    Affected(r, Turn(r.mode, c).1).(mode := Turn(r.mode, c).0, at := r.at + 1)
  }

  ghost function Read(r: Reader, s: string): Reader
    decreases |s|
  {
    if s == "" then r else Read(Step(r, s[0]), s[1..])
  }

  ghost predicate InString(m: Mode) {
    m.InText? || m.Backslash? || m.InName?
  }

  /** At the end of the text an open string, or name, is no value. */
  ghost function Finished(r: Reader): set<Piece> {
    if InString(r.mode) then r.found else Flushed(r).found
  }

  /** The strings and quoted names of a text. */
  ghost function Pieces(s: string): set<Piece> {
    Finished(Read(FRESH, s))
  }

  lemma {:induction false} ReadTwice(r: Reader, a: string, b: string)
    ensures Read(r, a + b) == Read(Read(r, a), b)
    decreases |a|
  {
    hide Step;
    if a == "" {
      assert a + b == b;
    } else {
      ReadTwice(Step(r, a[0]), a[1..], b);
      assert (a + b)[1..] == a[1..] + b;
    }
  }

  lemma ReadOne(r: Reader, c: char)
    ensures Read(r, [c]) == Step(r, c)
  {
    hide Step;
    assert [c][1..] == "";
  }

  // ---- what reading keeps ----

  /** Strings are quoted by single or double quotes only. */
  ghost predicate NotBackquoted(m: Mode) {
    m.InText? || m.Backslash? || m.Closing? ==> m.quote != '`'
  }

  /** Values began earlier, and inside a string or name there is one. */
  ghost predicate Proper(r: Reader) {
    && (forall p :: p in r.found ==> p.start < r.at)
    && (r.cur.Some? ==> r.cur.value.start < r.at)
    && (InString(r.mode) || r.mode.Closing? || r.mode.ClosingName? ==> r.cur.Some?)
    && NotBackquoted(r.mode)
  }

  lemma StepProper(r: Reader, c: char)
    requires Proper(r)
    ensures Proper(Step(r, c)) && r.found <= Step(r, c).found
  {
    hide Unescaped, IsWord, IsControl, IsBlank, NotBackquoted;
    StepNotBackquoted(r.mode, c);
  }

  lemma StepNotBackquoted(m: Mode, c: char)
    requires NotBackquoted(m)
    ensures NotBackquoted(Turn(m, c).0)
  {
    hide Unescaped, IsWord, IsControl, IsBlank;
  }

  lemma {:induction false} ReadProper(r: Reader, s: string)
    requires Proper(r)
    ensures Proper(Read(r, s)) && r.found <= Read(r, s).found && Read(r, s).at == r.at + |s|
    decreases |s|
  {
    hide Step, Proper;
    if s != "" {
      StepProper(r, s[0]);
      StepAt(r, s[0]);
      ReadProper(Step(r, s[0]), s[1..]);
    }
  }

  lemma StepAt(r: Reader, c: char)
    ensures Step(r, c).at == r.at + 1
  {
    hide Turn;
  }

  /** No value begins, or began, at p. */
  ghost predicate NoneFrom(r: Reader, p: nat) {
    && p < r.at && (r.cur.Some? ==> r.cur.value.start != p) && forall f :: f in r.found ==> f.start != p
  }

  lemma StepNoneFrom(r: Reader, c: char, p: nat)
    requires NoneFrom(r, p)
    ensures NoneFrom(Step(r, c), p)
  {
    hide Turn;
  }

  lemma {:induction false} ReadNoneFrom(r: Reader, s: string, p: nat)
    requires NoneFrom(r, p)
    ensures NoneFrom(Read(r, s), p)
    decreases |s|
  {
    hide Step, NoneFrom;
    if s != "" {
      StepNoneFrom(r, s[0], p);
      ReadNoneFrom(Step(r, s[0]), s[1..], p);
    }
  }

  /** The value p is not found, and never will be: if it is still being read, it goes on. */
  ghost predicate Lost(r: Reader, p: Piece) {
    && p !in r.found && p.start < r.at && p.end <= r.at
    && (r.cur.Some? && r.cur.value.start == p.start ==> InString(r.mode) || r.cur.value.end > p.end)
  }

  lemma StepLost(r: Reader, c: char, p: Piece)
    requires Lost(r, p)
    ensures Lost(Step(r, c), p)
  {
    hide Unescaped, IsWord, IsControl, IsBlank;
  }

  lemma {:induction false} ReadLost(r: Reader, s: string, p: Piece)
    requires Lost(r, p)
    ensures Lost(Read(r, s), p) && p !in Finished(Read(r, s))
    decreases |s|
  {
    hide Step;
    if s != "" {
      StepLost(r, s[0], p);
      ReadLost(Step(r, s[0]), s[1..], p);
    }
  }

  // ---- a literal ----

  ghost function Literal(v: string): string {
    "'" + Escape(v) + "'"
  }

  ghost predicate Inside(r: Reader) {
    r.mode == InText('\'') && r.cur.Some? && r.cur.value.end == r.cur.value.start
  }

  lemma AppendOne(r: Reader, c: char)
    requires Inside(r)
    ensures Read(r, EscapeChar(c)) == Longer(r, [c]).(at := r.at + |EscapeChar(c)|)
  {
    hide Escape, Step, EscapeChar, Unescaped;
    var e := EscapeChar(c);
    EscapeCharIs(c);
    if |e| == 1 {
      ReadOne(r, c);
      PlainInText(r, c);
    } else {
      assert e == [e[0]] + [e[1]];
      ReadTwice(r, [e[0]], [e[1]]);
      ReadOne(r, e[0]);
      ReadOne(Step(r, e[0]), e[1]);
      PairInText(r, e[0], e[1]);
    }
  }

  lemma PlainInText(r: Reader, c: char)
    requires Inside(r) && EscapeChar(c) == [c]
    ensures Step(r, c) == Longer(r, [c]).(at := r.at + 1)
  {
  }

  lemma PairInText(r: Reader, a: char, b: char)
    requires Inside(r) && (a == '\\' || (a == '\'' && b == '\''))
    ensures Step(Step(r, a), b) == Longer(r, if a == '\'' then "'" else Unescaped(b)).(at := r.at + 2)
  {
    hide Unescaped;
  }

  lemma LongerTwice(r: Reader, a: string, b: string)
    requires Inside(r)
    ensures Longer(Longer(r, a), b) == Longer(r, a + b) && Longer(r, "") == r
  {
    assert r.cur.value.value + a + b == r.cur.value.value + (a + b);
    assert r.cur.value.value + "" == r.cur.value.value;
  }

  lemma {:induction false} EscapedInText(r: Reader, v: string)
    requires Inside(r)
    ensures Read(r, Escape(v)) == Longer(r, v).(at := r.at + |Escape(v)|)
    decreases |v|
  {
    LongerTwice(r, "", "");
    if v != "" {
      hide Read, EscapeChar;
      AppendOne(r, v[0]);
      LongerTwice(r, [v[0]], v[1..]);
      assert [v[0]] + v[1..] == v;
      EscapedInText(Longer(r, [v[0]]).(at := r.at + |EscapeChar(v[0])|), v[1..]);
      ReadTwice(r, EscapeChar(v[0]), Escape(v[1..]));
    }
  }

  /** A quote begins a new string value here. */
  ghost predicate Opens(m: Mode, open: bool) {
    (m.Plain? && !open) || m.Word? || m.ClosingName? || m.Dash? || m.DashDash? || m.Slash?
  }

  lemma LiteralOpens(r: Reader, v: string)
    requires Proper(r) && Opens(r.mode, r.cur.Some?)
    ensures var p := Piece(r.at, r.at + |Literal(v)|, v);
            Read(r, Literal(v)) == Reader(Closing('\''), p.end, Some(p), Flushed(r).found)
  {
    hide Step, Read, Escape, Proper, Opens, Flushed, Longer, Literal;
    var begun := Reader(InText('\''), r.at + 1, Some(Piece(r.at, r.at, "")), Flushed(r).found);
    OpenText(r);
    EscapedInText(begun, v);
    LongerFresh(begun, v);
    ReadBetween(r, '\'', Escape(v), '\'');
    LiteralIs(v);
    CloseText(begun.(at := r.at + 1 + |Escape(v)|, cur := Some(Piece(r.at, r.at, v))));
  }

  lemma LongerFresh(r: Reader, v: string)
    requires r.at > 0 && r.cur == Some(Piece(r.at - 1, r.at - 1, ""))
    ensures Longer(r, v) == r.(cur := Some(Piece(r.at - 1, r.at - 1, v)))
  {
    assert "" + v == v;
  }

  lemma LiteralIs(v: string)
    ensures Literal(v) == ['\''] + Escape(v) + ['\''] && |Literal(v)| == |Escape(v)| + 2
  {
  }

  lemma ReadBetween(r: Reader, a: char, s: string, b: char)
    ensures Read(r, [a] + s + [b]) == Step(Read(Step(r, a), s), b)
  {
    hide Step;
    ReadTwice(r, [a] + s, [b]);
    ReadTwice(r, [a], s);
    ReadOne(r, a);
    ReadOne(Read(r, [a] + s), b);
  }

  lemma OpenText(r: Reader)
    requires Proper(r) && Opens(r.mode, r.cur.Some?)
    ensures Step(r, '\'') == Reader(InText('\''), r.at + 1, Some(Piece(r.at, r.at, "")), Flushed(r).found)
  {
  }

  lemma CloseText(r: Reader)
    requires r.mode == InText('\'') && r.cur.Some?
    ensures Step(r, '\'') == r.(mode := Closing('\''), at := r.at + 1, cur := Some(r.cur.value.(end := r.at + 1)))
  {
  }

  lemma LiteralElsewhere(r: Reader, v: string, rest: string)
    requires Proper(r) && !Opens(r.mode, r.cur.Some?)
    ensures NoneFrom(Read(r, Literal(v) + rest), r.at)
    ensures forall p :: p in Finished(Read(r, Literal(v) + rest)) ==> p.start != r.at
  {
    hide *;
    var more := Escape(v) + ['\''] + rest;
    QuoteOpensNothing(r);
    LiteralIs(v);
    assert Literal(v) + rest == ['\''] + more;
    ReadTwice(r, ['\''], more);
    ReadOne(r, '\'');
    ReadNoneFrom(Step(r, '\''), more, r.at);
    NoneFinishes(Read(r, Literal(v) + rest), r.at);
  }

  lemma NoneFinishes(t: Reader, at: nat)
    requires NoneFrom(t, at)
    ensures forall p :: p in Finished(t) ==> p.start != at
  {
  }

  lemma QuoteOpensNothing(r: Reader)
    requires Proper(r) && !Opens(r.mode, r.cur.Some?)
    ensures NoneFrom(Step(r, '\''), r.at)
  {
  }

  // ---- a quoted name ----

  ghost predicate InsideName(r: Reader) {
    r.mode == InName && r.cur.Some? && r.cur.value.end == r.cur.value.start
  }

  lemma DoubledOne(r: Reader, c: char)
    requires InsideName(r)
    ensures var d := if c == '`' then "``" else [c]; Read(r, d) == Longer(r, [c]).(at := r.at + |d|)
  {
    hide Doubled, Step, Read;
    if c == '`' {
      assert "``" == ['`'] + ['`'];
      ReadTwice(r, ['`'], ['`']);
      ReadOne(r, '`');
      ReadOne(Step(r, '`'), '`');
      PairInName(r);
    } else {
      ReadOne(r, c);
      PlainInName(r, c);
    }
  }

  lemma PlainInName(r: Reader, c: char)
    requires InsideName(r) && c != '`'
    ensures Step(r, c) == Longer(r, [c]).(at := r.at + 1)
  {
  }

  lemma PairInName(r: Reader)
    requires InsideName(r)
    ensures Step(Step(r, '`'), '`') == Longer(r, "`").(at := r.at + 2)
  {
  }

  lemma {:induction false} DoubledInName(r: Reader, v: string)
    requires InsideName(r)
    ensures Read(r, Doubled(v)) == Longer(r, v).(at := r.at + |Doubled(v)|)
    decreases |v|
  {
    LongerOn(r, "", "");
    if v != "" {
      hide Read;
      var d := if v[0] == '`' then "``" else [v[0]];
      DoubledOne(r, v[0]);
      LongerOn(r, [v[0]], v[1..]);
      assert [v[0]] + v[1..] == v;
      DoubledInName(Longer(r, [v[0]]).(at := r.at + |d|), v[1..]);
      ReadTwice(r, d, Doubled(v[1..]));
    }
  }

  lemma LongerOn(r: Reader, a: string, b: string)
    requires InsideName(r)
    ensures Longer(Longer(r, a), b) == Longer(r, a + b) && Longer(r, "") == r
  {
    assert r.cur.value.value + a + b == r.cur.value.value + (a + b);
    assert r.cur.value.value + "" == r.cur.value.value;
  }

  /** A backquote begins a new name here. */
  ghost predicate NameOpens(m: Mode) {
    m.Plain? || m.Word? || m.Radix? || m.Closing? || m.Dash? || m.DashDash? || m.Slash?
  }

  lemma OpenName(r: Reader)
    requires Proper(r) && NameOpens(r.mode)
    ensures Step(r, '`') == Reader(InName, r.at + 1, Some(Piece(r.at, r.at, "")), Flushed(r).found)
  {
  }

  lemma CloseName(r: Reader)
    requires r.mode == InName && r.cur.Some?
    ensures Step(r, '`') == r.(mode := ClosingName, at := r.at + 1, cur := Some(r.cur.value.(end := r.at + 1)))
  {
  }

  lemma QuoteIdentIs(v: string)
    ensures QuoteIdent(v) == ['`'] + Doubled(v) + ['`'] && |QuoteIdent(v)| == |Doubled(v)| + 2
  {
  }

  lemma NameRead(r: Reader, v: string)
    requires Proper(r) && NameOpens(r.mode)
    ensures var p := Piece(r.at, r.at + |QuoteIdent(v)|, v);
            Read(r, QuoteIdent(v)) == Reader(ClosingName, p.end, Some(p), Flushed(r).found)
  {
    hide Step, Read, Doubled, Proper, NameOpens, Flushed, Longer, QuoteIdent;
    var begun := Reader(InName, r.at + 1, Some(Piece(r.at, r.at, "")), Flushed(r).found);
    OpenName(r);
    DoubledInName(begun, v);
    LongerFresh(begun, v);
    ReadBetween(r, '`', Doubled(v), '`');
    QuoteIdentIs(v);
    CloseName(begun.(at := r.at + 1 + |Doubled(v)|, cur := Some(Piece(r.at, r.at, v))));
  }

  lemma NameElsewhere(r: Reader, v: string, rest: string)
    requires Proper(r) && !NameOpens(r.mode)
    ensures NoneFrom(Read(r, QuoteIdent(v) + rest), r.at)
    ensures forall p :: p in Finished(Read(r, QuoteIdent(v) + rest)) ==> p.start != r.at
  {
    hide *;
    var more := Doubled(v) + ['`'] + rest;
    BackquoteOpensNothing(r);
    QuoteIdentIs(v);
    assert QuoteIdent(v) + rest == ['`'] + more;
    ReadTwice(r, ['`'], more);
    ReadOne(r, '`');
    ReadNoneFrom(Step(r, '`'), more, r.at);
    NoneFinishes(Read(r, QuoteIdent(v) + rest), r.at);
  }

  lemma BackquoteOpensNothing(r: Reader)
    requires Proper(r) && !NameOpens(r.mode)
    ensures NoneFrom(Step(r, '`'), r.at)
  {
  }

  /** The name p was just closed. */
  ghost predicate Named(r: Reader, p: Piece) {
    r.mode == ClosingName && r.cur == Some(p) && p !in r.found && p.start < r.at && p.end <= r.at
  }

  lemma NamedAfter(r: Reader, v: string)
    requires Proper(r) && NameOpens(r.mode)
    ensures Proper(Read(r, QuoteIdent(v)))
    ensures Named(Read(r, QuoteIdent(v)), Piece(r.at, r.at + |QuoteIdent(v)|, v))
  {
    hide Read, NameOpens, Doubled;
    NameRead(r, v);
    ReadProper(r, QuoteIdent(v));
  }

  /** A closed name goes on exactly when another backquote follows at once. */
  lemma BackquoteDecides(r: Reader, p: Piece, s: string)
    requires Proper(r) && Named(r, p)
    ensures p in Finished(Read(r, s)) <==> !StartsWith(s, '`')
  {
    if s != "" {
      NamedStep(r, p, s[0]);
      hide Finished, Named, Proper, Step, Lost;
      StepProper(r, s[0]);
      if s[0] == '`' {
        ReadLost(Step(r, s[0]), s[1..], p);
      } else {
        StaysFound(Step(r, s[0]), p, s[1..]);
      }
    }
  }

  lemma NamedStep(r: Reader, p: Piece, c: char)
    requires Proper(r) && Named(r, p)
    ensures if c == '`' then Lost(Step(r, c), p) else p in Step(r, c).found
  {
  }

  lemma PiecesAre(s: string)
    ensures Pieces(s) == Finished(Read(FRESH, s))
  {
  }

  /** Whatever stands around it, a quoted name is read as one value of exactly its own, exactly
      when a backquote begins a name there and no other follows. */
  lemma NameReadsBackExactly(before: string, v: string, behind: string)
    ensures var r := Read(FRESH, before);
            Piece(|before|, |before| + |QuoteIdent(v)|, v) in Pieces(before + QuoteIdent(v) + behind) <==>
            NameOpens(r.mode) && !StartsWith(behind, '`')
  {
    hide *;
    var r, p := Read(FRESH, before), Piece(|before|, |before| + |QuoteIdent(v)|, v);
    FreshReads(before);
    PiecesAre(before + QuoteIdent(v) + behind);
    assert before + QuoteIdent(v) + behind == before + (QuoteIdent(v) + behind);
    ReadTwice(FRESH, before, QuoteIdent(v) + behind);
    if NameOpens(r.mode) {
      ReadTwice(r, QuoteIdent(v), behind);
      NamedAfter(r, v);
      BackquoteDecides(Read(r, QuoteIdent(v)), p, behind);
    } else {
      NameElsewhere(r, v, behind);
    }
  }

  // ---- does a string go on? ----

  function AfterLine(s: string): (r: string)
    ensures |r| <= |s|
    decreases |s|
  {
    if s == "" then "" else if s[0] == '\n' then s[1..] else AfterLine(s[1..])
  }

  function AfterBlock(s: string): (r: string)
    ensures |r| <= |s|
    decreases |s|
  {
    if |s| < 2 then "" else if s[0] == '*' && s[1] == '/' then s[2..] else AfterBlock(s[1..])
  }

  /** After blanks and comments there is a quote. */
  predicate Continues(s: string)
    decreases |s|
  {
    if s == "" then false
    else if IsQuote(s[0]) then true
    else if IsBlank(s[0]) then Continues(s[1..])
    else if s[0] == '#' then Continues(AfterLine(s[1..]))
    else if |s| > 2 && s[0] == s[1] == '-' && (IsBlank(s[2]) || IsControl(s[2])) then Continues(AfterLine(s[2..]))
    else if |s| > 1 && s[0] == '/' && s[1] == '*' then Continues(AfterBlock(s[2..]))
    else false
  }

  ghost function Resumed(r: Reader, at: nat): Reader {
    r.(mode := Plain, at := at)
  }

  lemma {:induction false} LineReads(r: Reader, s: string)
    requires r.mode == Line
    ensures Finished(Read(r, s)) == Finished(Read(Resumed(r, r.at + |s| - |AfterLine(s)|), AfterLine(s)))
    decreases |s|
  {
    if s != "" {
      assert Step(r, s[0]) == r.(mode := if s[0] == '\n' then Plain else Line, at := r.at + 1);
      if s[0] != '\n' {
        LineReads(r.(at := r.at + 1), s[1..]);
      }
    }
  }

  lemma {:induction false} BlockReads(r: Reader, s: string)
    requires r.mode == Block || r.mode == BlockStar
    ensures var t := if r.mode == Block then s else "*" + s;
            var rest := AfterBlock(t);
            |rest| <= |s| && Finished(Read(r, s)) == Finished(Read(Resumed(r, r.at + |s| - |rest|), rest))
    decreases |s|
  {
    if s != "" {
      hide Step, Finished, Read, AfterBlock;
      var t := if r.mode == Block then s else "*" + s;
      var next := Step(r, s[0]);
      BlockStep(r, s[0]);
      ReadNext(r, s);
      if next.mode == Plain {
        assert t[2..] == s[1..];
        BlockEnds(t);
      } else {
        BlockReads(next, s[1..]);
        assert next.mode == BlockStar ==> "*" + s[1..] == s;
        AfterBlockSkips(t, s, r.mode == BlockStar);
      }
    }
  }

  lemma BlockEnds(t: string)
    requires |t| >= 2 && t[0] == '*' && t[1] == '/'
    ensures AfterBlock(t) == t[2..]
  {
  }

  lemma BlockStep(r: Reader, c: char)
    requires r.mode == Block || r.mode == BlockStar
    ensures Step(r, c) == r.(at := r.at + 1, mode := if r.mode == BlockStar && c == '/' then Plain
                                                     else if c == '*' then BlockStar
                                                     else Block)
  {
  }

  lemma AfterBlockSkips(t: string, s: string, star: bool)
    requires s != "" && t == if star then "*" + s else s
    requires star ==> s[0] != '/'
    ensures AfterBlock(t) == AfterBlock(if s[0] == '*' then s else s[1..])
  {
    if star {
      assert t[1..] == s;
    }
  }

  /** With a complete value before it, the text decides whether that value goes on. */
  ghost predicate After(r: Reader, p: Piece) {
    && (r.mode == Plain || r.mode == Closing('\'')) && r.cur == Some(p)
    && p !in r.found && p.start < r.at && p.end <= r.at
  }

  lemma {:induction false} ContinuesDecides(r: Reader, p: Piece, s: string)
    requires Proper(r) && After(r, p)
    ensures p in Finished(Read(r, s)) <==> !Continues(s)
    decreases |s|, 3
  {
    if s != "" {
      var next := Step(r, s[0]);
      StepProper(r, s[0]);
      if IsQuote(s[0]) {
        hide Finished, Continues;
        QuoteGoesOn(r, p, s[0]);
        ReadLost(next, s[1..], p);
        assert Continues(s) by {
          QuoteContinues(s);
        }
      } else {
        hide Proper, Turn;
        BeginAfter(r, p, s[0]);
        if IsBlank(s[0]) {
          ContinuesDecides(next, p, s[1..]);
        } else if s[0] == '#' {
          CommentDecides(r, p, next, s, 1);
        } else if s[0] == '-' {
          DashDecides(r, p, s);
        } else if s[0] == '/' {
          SlashDecides(r, p, s);
        } else {
          StaysFound(next, p, s[1..]);
        }
      }
    }
  }

  lemma QuoteContinues(s: string)
    requires s != "" && IsQuote(s[0])
    ensures Continues(s)
  {
  }

  lemma QuoteGoesOn(r: Reader, p: Piece, c: char)
    requires Proper(r) && After(r, p) && IsQuote(c)
    ensures Lost(Step(r, c), p)
  {
  }

  lemma BeginAfter(r: Reader, p: Piece, c: char)
    requires Proper(r) && After(r, p) && !IsQuote(c)
    ensures var t := Step(r, c);
            if IsBlank(c) || c == '#' || c == '-' || c == '/' then
              t == r.(at := r.at + 1, mode := if IsBlank(c) then Plain
                                              else if c == '#' then Line
                                              else if c == '-' then Dash
                                              else Slash)
            else p in t.found
  {
  }

  lemma StaysFound(r: Reader, p: Piece, s: string)
    requires Proper(r) && p in r.found
    ensures p in Finished(Read(r, s))
  {
    hide Proper;
    ReadProper(r, s);
  }

  /** k characters open a line comment. */
  lemma CommentDecides(r: Reader, p: Piece, m: Reader, s: string, k: nat)
    requires Proper(r) && After(r, p) && 1 <= k <= |s| && m == r.(mode := Line, at := r.at + k)
    ensures p in Finished(Read(m, s[k..])) <==> !Continues(AfterLine(s[k..]))
    decreases |s|, 0
  {
    hide Read, Continues, Finished, Proper, After;
    LineReads(m, s[k..]);
    var rest := AfterLine(s[k..]);
    ResumedAfter(r, p, m.at + |s[k..]| - |rest|);
    ContinuesDecides(Resumed(m, m.at + |s[k..]| - |rest|), p, rest);
  }

  lemma ReadNext(r: Reader, s: string)
    ensures s != "" ==> Read(r, s) == Read(Step(r, s[0]), s[1..])
    ensures s == "" ==> Read(r, s) == r
  {
  }

  lemma NowComplete(r: Reader, p: Piece)
    requires r.cur == Some(p) && !InString(r.mode)
    ensures p in Finished(r)
  {
  }

  /** Leaving a dash or a slash without a comment completes the value. */
  lemma MarkEndsAfter(r: Reader, p: Piece, m: Mode, at: nat, c: char)
    requires Proper(r) && After(r, p) && at > r.at
    requires || (m == Dash && c != '-') || (m == Slash && c != '*')
             || (m == DashDash && !IsBlank(c) && !IsControl(c))
    ensures var next := Step(r.(mode := m, at := at), c); Proper(next) && p in next.found
  {
    hide Step, IsBlank, IsControl;
    MarkEnds(r.(mode := m, at := at), p, c);
  }

  lemma ResumedAfter(r: Reader, p: Piece, at: nat)
    requires Proper(r) && After(r, p) && at >= r.at
    ensures Proper(r.(mode := Plain, at := at)) && After(r.(mode := Plain, at := at), p)
  {
  }

  lemma MarkEnds(r: Reader, p: Piece, c: char)
    requires Proper(r) && r.cur == Some(p)
    requires || (r.mode == Dash && c != '-') || (r.mode == Slash && c != '*')
             || (r.mode == DashDash && !IsBlank(c) && !IsControl(c))
    ensures Proper(Step(r, c)) && p in Step(r, c).found
  {
    StepProper(r, c);
  }

  lemma MarkGoesOn(r: Reader, c: char)
    ensures r.mode == Dash && c == '-' ==> Step(r, c) == r.(mode := DashDash, at := r.at + 1)
    ensures r.mode == Slash && c == '*' ==> Step(r, c) == r.(mode := Block, at := r.at + 1)
    ensures r.mode == DashDash && (IsBlank(c) || IsControl(c)) ==>
              Step(r, c) == r.(mode := if c == '\n' then Plain else Line, at := r.at + 1)
  {
  }

  lemma NoCommentNoString(s: string)
    requires s != "" && (s[0] == '-' || s[0] == '/')
    requires s[0] == '-' ==> |s| <= 2 || s[1] != '-' || !(IsBlank(s[2]) || IsControl(s[2]))
    requires s[0] == '/' ==> |s| == 1 || s[1] != '*'
    ensures !Continues(s)
  {
  }

  lemma MarkBegins(r: Reader, p: Piece, c: char)
    requires Proper(r) && After(r, p) && (c == '-' || c == '/')
    ensures Step(r, c) == r.(mode := if c == '-' then Dash else Slash, at := r.at + 1)
  {
  }

  lemma SlashDecides(r: Reader, p: Piece, s: string)
    requires Proper(r) && After(r, p) && s != "" && s[0] == '/'
    ensures p in Finished(Read(r, s)) <==> !Continues(s)
    decreases |s|, 2
  {
    hide Read, Step, Continues, Finished, IsBlank, IsControl, Proper, After, AfterBlock;
    MarkBegins(r, p, '/');
    var next := r.(mode := Slash, at := r.at + 1);
    ReadNext(r, s);
    if |s| > 1 && s[1] == '*' {
      ReadNext(next, s[1..]);
      MarkGoesOn(next, s[1]);
      assert s[1..][1..] == s[2..];
      InBlockDecides(r, p, s);
    } else {
      NoCommentNoString(s);
      OneMarkDecides(r, p, Slash, s);
    }
  }

  lemma OneMarkDecides(r: Reader, p: Piece, m: Mode, s: string)
    requires Proper(r) && After(r, p) && s != "" && (m == Slash || m == Dash)
    requires |s| > 1 ==> s[1] != if m == Slash then '*' else '-'
    ensures p in Finished(Read(r.(mode := m, at := r.at + 1), s[1..]))
  {
    hide Read, Step, Finished, Proper;
    var next := r.(mode := m, at := r.at + 1);
    ReadNext(next, s[1..]);
    if |s| > 1 {
      MarkEndsAfter(r, p, m, r.at + 1, s[1]);
      StaysFound(Step(next, s[1]), p, s[1..][1..]);
    } else {
      NowComplete(next, p);
    }
  }

  lemma InBlockDecides(r: Reader, p: Piece, s: string)
    requires Proper(r) && After(r, p) && |s| > 1 && s[0] == '/' && s[1] == '*'
    ensures p in Finished(Read(r.(mode := Block, at := r.at + 2), s[2..])) <==> !Continues(s)
    decreases |s|, 1
  {
    hide Read, Step, Continues, Finished, Proper, After;
    var inside, rest := r.(mode := Block, at := r.at + 2), AfterBlock(s[2..]);
    BlockReads(inside, s[2..]);
    BlockContinues(s);
    ResumedAfter(r, p, inside.at + |s[2..]| - |rest|);
    ContinuesDecides(Resumed(inside, inside.at + |s[2..]| - |rest|), p, rest);
  }

  lemma BlockContinues(s: string)
    requires |s| > 1 && s[0] == '/' && s[1] == '*'
    ensures Continues(s) <==> Continues(AfterBlock(s[2..]))
  {
    hide AfterLine, AfterBlock;
  }

  lemma DashDecides(r: Reader, p: Piece, s: string)
    requires Proper(r) && After(r, p) && s != "" && s[0] == '-'
    ensures p in Finished(Read(r, s)) <==> !Continues(s)
    decreases |s|, 2
  {
    hide Read, Step, Continues, Finished, IsBlank, IsControl, Proper, After;
    MarkBegins(r, p, '-');
    var next := r.(mode := Dash, at := r.at + 1);
    ReadNext(r, s);
    if |s| > 1 && s[1] == '-' {
      ReadNext(next, s[1..]);
      MarkGoesOn(next, s[1]);
      assert s[1..][1..] == s[2..];
      TwoDashesDecide(r, p, s);
    } else {
      NoCommentNoString(s);
      OneMarkDecides(r, p, Dash, s);
    }
  }

  lemma TwoDashesDecide(r: Reader, p: Piece, s: string)
    requires Proper(r) && After(r, p) && |s| >= 2 && s[0] == s[1] == '-'
    ensures var two := r.(mode := DashDash, at := r.at + 2);
            p in Finished(Read(two, s[2..])) <==> !Continues(s)
    decreases |s|, 1
  {
    hide Read, Step, Continues, Finished, IsBlank, IsControl, Proper;
    var two := r.(mode := DashDash, at := r.at + 2);
    ReadNext(two, s[2..]);
    if |s| == 2 {
      NoCommentNoString(s);
      NowComplete(two, p);
    } else if IsBlank(s[2]) || IsControl(s[2]) {
      MarkGoesOn(two, s[2]);
      assert s[2..][1..] == s[3..];
      LineContinues(s);
      if s[2] == '\n' {
        ResumedAfter(r, p, r.at + 3);
        ContinuesDecides(r.(mode := Plain, at := r.at + 3), p, s[3..]);
      } else {
        CommentDecides(r, p, r.(mode := Line, at := r.at + 3), s, 3);
      }
    } else {
      NoCommentNoString(s);
      MarkEndsAfter(r, p, DashDash, r.at + 2, s[2]);
      StaysFound(Step(two, s[2]), p, s[2..][1..]);
    }
  }

  lemma LineContinues(s: string)
    requires |s| > 2 && s[0] == s[1] == '-' && (IsBlank(s[2]) || IsControl(s[2]))
    ensures Continues(s) <==> Continues(if s[2] == '\n' then s[3..] else AfterLine(s[3..]))
  {
    assert s[2..][1..] == s[3..];
    assert AfterLine(s[2..]) == if s[2] == '\n' then s[3..] else AfterLine(s[3..]);
  }

  // ---- the theorem ----

  lemma FreshReads(s: string)
    ensures Proper(Read(FRESH, s)) && Read(FRESH, s).at == |s|
  {
    ReadProper(FRESH, s);
  }

  /** In any text, a rendered string is read as one string value of exactly its own, exactly
      when a quote begins a value before it and no string goes on behind it. */
  lemma ReadsBackExactly(before: string, v: string, behind: string)
    ensures var p := Piece(|before|, |before| + |Literal(v)|, v);
            p in Pieces(before + Literal(v) + behind) <==>
            Opens(Read(FRESH, before).mode, Read(FRESH, before).cur.Some?) && !Continues(behind)
  {
    hide Read, Finished, Literal, Opens, Continues, Proper, After, Step;
    var r, p := Read(FRESH, before), Piece(|before|, |before| + |Literal(v)|, v);
    FreshReads(before);
    assert before + Literal(v) + behind == before + (Literal(v) + behind);
    ReadTwice(FRESH, before, Literal(v) + behind);
    if Opens(r.mode, r.cur.Some?) {
      ReadTwice(r, Literal(v), behind);
      LiteralOpens(r, v);
      AfterLiteral(r, v);
      ContinuesDecides(Read(r, Literal(v)), p, behind);
    } else {
      LiteralElsewhere(r, v, behind);
    }
  }

  lemma AfterLiteral(r: Reader, v: string)
    requires Proper(r) && Opens(r.mode, r.cur.Some?)
    ensures Proper(Read(r, Literal(v)))
    ensures After(Read(r, Literal(v)), Piece(r.at, r.at + |Literal(v)|, v))
  {
    hide Read, Opens, Escape;
    LiteralOpens(r, v);
    ReadProper(r, Literal(v));
  }

  // ---- rendered templates ----

  /** A rendered template, part by part. */
  datatype Part = Own(text: string) | Given(value: Value)

  ghost predicate IsString(v: Value) {
    v.Text? || v.Bytes?
  }

  ghost predicate IsQuoted(v: Value) {
    IsString(v) || v.Identifier?
  }

  /** What a quoted parameter should be read as. */
  ghost function Content(v: Value): string
    requires IsQuoted(v)
  {
    if v.Text? then v.text else if v.Bytes? then v.bytes else v.name
  }

  /** Its opening quote begins a value in this mode, with or without a string that could go
      on. */
  ghost predicate Fits(v: Value, m: Mode, open: bool) {
    if v.Identifier? then NameOpens(m) else Opens(m, open)
  }

  ghost function ClosedMode(v: Value): Mode {
    if v.Identifier? then ClosingName else Closing('\'')
  }

  ghost predicate Printable(parts: seq<Part>) {
    forall i :: 0 <= i < |parts| && parts[i].Given? ==> Formatted(parts[i].value).Some?
  }

  ghost function PartText(p: Part): string {
    match p
    case Own(text) => text
    case Given(v) => if Formatted(v).Some? then Formatted(v).value else ""
  }

  ghost function Joined(parts: seq<Part>): string
    decreases |parts|
  {
    if parts == [] then "" else PartText(parts[0]) + Joined(parts[1..])
  }

  ghost function Parts(t: Template, params: map<string, Value>, trim: Trim): seq<Part> {
    match t
    case Tail(text) => [Own(text)]
    case Cut(before, raw, rest) =>
      if trim(raw) in params then [Own(before), Given(params[trim(raw)])] + Parts(rest, params, trim) else []
  }

  lemma {:induction false} RenderedIsJoined(t: Template, params: map<string, Value>, trim: Trim)
    requires Rendered(t, params, trim).Ok?
    ensures Rendered(t, params, trim).value == Joined(Parts(t, params, trim))
    decreases t
  {
    match t
    case Tail(text) =>
      assert [Own(text)][1..] == [] && text + "" == text;
    case Cut(before, raw, rest) =>
      RenderedIsJoined(rest, params, trim);
      var parts, tail := Parts(t, params, trim), Parts(rest, params, trim);
      var v := params[trim(raw)];
      assert parts[0] == Own(before) && parts[1..] == [Given(v)] + tail;
      assert parts[1..][0] == Given(v) && parts[1..][1..] == tail;
      assert before + Formatted(v).value + Joined(tail) == before + (Formatted(v).value + Joined(tail));
  }

  lemma {:induction false} JoinedSplits(a: seq<Part>, b: seq<Part>)
    ensures Joined(a + b) == Joined(a) + Joined(b)
    decreases |a|
  {
    if a == [] {
      assert a + b == b && "" + Joined(b) == Joined(b);
    } else {
      hide PartText, Joined;
      JoinedSplits(a[1..], b);
      JoinedFirst(a);
      JoinedFirst(a + b);
      assert (a + b)[1..] == a[1..] + b;
      assert PartText(a[0]) + (Joined(a[1..]) + Joined(b)) == PartText(a[0]) + Joined(a[1..]) + Joined(b);
    }
  }

  lemma JoinedFirst(parts: seq<Part>)
    requires parts != []
    ensures Joined(parts) == PartText(parts[0]) + Joined(parts[1..])
  {
  }

  lemma LiteralOf(v: Value)
    requires IsString(v)
    ensures PartText(Given(v)) == Literal(Content(v))
  {
  }

  /** A string parameter in its place: it is read as one string value of exactly its own,
      exactly when a quote begins a value after the parts before it and no string goes on in
      the parts behind it. */
  lemma RenderedTextReadsBack(t: Template, params: map<string, Value>, trim: Trim, k: nat)
    requires Rendered(t, params, trim).Ok?
    requires var parts := Parts(t, params, trim); k < |parts| && parts[k].Given? && IsString(parts[k].value)
    ensures var parts := Parts(t, params, trim);
            var before, r := Joined(parts[..k]), Read(FRESH, Joined(parts[..k]));
            var text := PartText(parts[k]);
            Piece(|before|, |before| + |text|, Content(parts[k].value)) in Pieces(Rendered(t, params, trim).value) <==>
            Opens(r.mode, r.cur.Some?) && !Continues(Joined(parts[k + 1..]))
  {
    hide Rendered, Parts, Read, Pieces, Opens, Continues, PartText, Literal, Content;
    var parts := Parts(t, params, trim);
    RenderedIsJoined(t, params, trim);
    SplitAround(parts, k);
    LiteralOf(parts[k].value);
    ReadsBackExactly(Joined(parts[..k]), Content(parts[k].value), Joined(parts[k + 1..]));
  }

  /** An identifier parameter in its place: it is read as one name of exactly its own, exactly
      when a backquote begins a name after the parts before it and no other follows. */
  lemma RenderedNameReadsBack(t: Template, params: map<string, Value>, trim: Trim, k: nat)
    requires Rendered(t, params, trim).Ok?
    requires var parts := Parts(t, params, trim); k < |parts| && parts[k].Given? && parts[k].value.Identifier?
    ensures var parts := Parts(t, params, trim);
            var before, text := Joined(parts[..k]), PartText(parts[k]);
            Piece(|before|, |before| + |text|, parts[k].value.name) in Pieces(Rendered(t, params, trim).value) <==>
            NameOpens(Read(FRESH, before).mode) && !StartsWith(Joined(parts[k + 1..]), '`')
  {
    hide Rendered, Parts, Read, Pieces, NameOpens, PartText, QuoteIdent, StartsWith;
    var parts := Parts(t, params, trim);
    RenderedIsJoined(t, params, trim);
    SplitAround(parts, k);
    NameOf(parts[k].value);
    NameReadsBackExactly(Joined(parts[..k]), parts[k].value.name, Joined(parts[k + 1..]));
  }

  lemma NameOf(v: Value)
    requires v.Identifier?
    ensures PartText(Given(v)) == QuoteIdent(v.name) && Content(v) == v.name
  {
  }

  lemma SplitAround(parts: seq<Part>, k: nat)
    requires k < |parts|
    ensures Joined(parts) == Joined(parts[..k]) + PartText(parts[k]) + Joined(parts[k + 1..])
  {
    hide PartText;
    assert parts == parts[..k] + parts[k..];
    JoinedSplits(parts[..k], parts[k..]);
    assert parts[k..][0] == parts[k] && parts[k..][1..] == parts[k + 1..];
    assert Joined(parts[..k]) + (PartText(parts[k]) + Joined(parts[k + 1..])) ==
           Joined(parts[..k]) + PartText(parts[k]) + Joined(parts[k + 1..]);
  }

  // ---- all parameters of a template ----

  /** What the last string value is: none that could go on, one of the template's own, or a
      parameter. */
  datatype Pending = Nothing | Quoted | Param

  /** The scanner of a template: it broke when something went on from a parameter. */
  datatype Scan = Scan(mode: Mode, pending: Pending) | Broken

  ghost function ScanStep(s: Scan, c: char): Scan {
    match s
    case Broken => Broken
    case Scan(mode, pending) =>
      var (next, effect) := Turn(mode, c);
      match effect
      case Drop => Scan(next, Nothing)
      case Enter => if pending == Param then Broken else Scan(next, Quoted)
      case DropEnter => Scan(next, Quoted)
      case Double(_) => if pending == Param then Broken else Scan(next, pending)
      case _ => Scan(next, pending)
  }

  ghost function Scanned(s: Scan, text: string): Scan
    decreases |text|
  {
    if text == "" then s else Scanned(ScanStep(s, text[0]), text[1..])
  }

  /** Every string or identifier parameter stands where its quote begins a value, and nothing
      goes on from it. What it contains does not matter. */
  ghost predicate WellPlaced(parts: seq<Part>, s: Scan)
    decreases |parts|
  {
    if s.Broken? then false
    else if parts == [] then true
    else if parts[0].Given? && IsQuoted(parts[0].value) then
      Fits(parts[0].value, s.mode, s.pending != Nothing)
      && WellPlaced(parts[1..], Scan(ClosedMode(parts[0].value), Param))
    else
      WellPlaced(parts[1..], Scanned(s, PartText(parts[0])))
  }

  ghost predicate SameShape(a: seq<Part>, b: seq<Part>) {
    && |a| == |b|
    && forall i :: 0 <= i < |a| ==>
                     || a[i] == b[i]
                     || (a[i].Given? && b[i].Given? && IsString(a[i].value) && IsString(b[i].value))
                     || (a[i].Given? && b[i].Given? && a[i].value.Identifier? && b[i].value.Identifier?)
  }

  lemma {:induction false} PlacementIsShape(a: seq<Part>, b: seq<Part>, s: Scan)
    requires SameShape(a, b)
    ensures WellPlaced(a, s) <==> WellPlaced(b, s)
    decreases |a|
  {
    if a != [] && !s.Broken? {
      hide Scanned, PartText, Opens, NameOpens;
      if a[0].Given? && IsQuoted(a[0].value) {
        PlacementIsShape(a[1..], b[1..], Scan(ClosedMode(a[0].value), Param));
      } else {
        PlacementIsShape(a[1..], b[1..], Scanned(s, PartText(a[0])));
      }
    }
  }

  /** The values that the string and identifier parameters should be read as. */
  ghost function Wanted(parts: seq<Part>, at: nat): set<Piece>
    decreases |parts|
  {
    if parts == [] then {} else
      var end := at + |PartText(parts[0])|;
      Wanted(parts[1..], end) +
      if parts[0].Given? && IsQuoted(parts[0].value) then {Piece(at, end, Content(parts[0].value))} else {}
  }

  /** The scanner says where the reader stands. */
  ghost predicate Agrees(r: Reader, s: Scan) {
    && s.Scan? && s.mode == r.mode && (s.pending == Nothing <==> r.cur.None?) && Proper(r)
    && (s.pending == Param ==> !InString(r.mode) && r.cur.value.end <= r.at && r.cur.value !in r.found)
  }

  ghost function Owed(r: Reader, s: Scan): set<Piece> {
    if s.Scan? && s.pending == Param && r.cur.Some? then {r.cur.value} else {}
  }

  lemma StepAgrees(r: Reader, s: Scan, c: char)
    requires Agrees(r, s)
    ensures var r', s' := Step(r, c), ScanStep(s, c);
            if s'.Broken? then Owed(r, s) != {} && Lost(r', r.cur.value)
            else Agrees(r', s') && Owed(r, s) <= r'.found + Owed(r', s') && Owed(r', s') <= Owed(r, s)
  {
    StepProper(r, c);
    hide Unescaped, IsWord, IsControl, IsBlank;
  }

  lemma {:induction false} ScanAgrees(r: Reader, s: Scan, text: string)
    requires Agrees(r, s)
    ensures var r', s' := Read(r, text), Scanned(s, text);
            if s'.Broken? then exists p :: p in Owed(r, s) && Lost(r', p)
            else Agrees(r', s') && Owed(r, s) <= r'.found + Owed(r', s') && Owed(r', s') <= Owed(r, s)
    decreases |text|
  {
    if text != "" {
      hide Agrees, Owed, Step, ScanStep, Lost;
      var r', s' := Step(r, text[0]), ScanStep(s, text[0]);
      StepAgrees(r, s, text[0]);
      if s'.Broken? {
        BrokenStays(s', text[1..]);
        OwedIs(r, s);
        ReadLost(r', text[1..], r.cur.value);
      } else {
        ScanAgrees(r', s', text[1..]);
        AgreesProper(r', s');
        ReadProper(r', text[1..]);
      }
    }
  }

  lemma AgreesProper(r: Reader, s: Scan)
    requires Agrees(r, s)
    ensures Proper(r)
  {
  }

  lemma OwedIs(r: Reader, s: Scan)
    requires Owed(r, s) != {}
    ensures r.cur.Some? && Owed(r, s) == {r.cur.value}
  {
  }

  lemma {:induction false} BrokenStays(s: Scan, text: string)
    requires s.Broken?
    ensures Scanned(s, text).Broken?
    decreases |text|
  {
    if text != "" {
      BrokenStays(ScanStep(s, text[0]), text[1..]);
    }
  }

  lemma BrokenIsBad(parts: seq<Part>, s: Scan)
    requires s.Broken?
    ensures !WellPlaced(parts, s)
  {
  }

  lemma OwedAtEnd(r: Reader, s: Scan)
    requires Agrees(r, s)
    ensures Owed(r, s) <= Finished(r)
  {
  }

  /** What is owed so far and what the rest wants is found exactly when the rest is well
      placed. */
  lemma {:induction false} AllFoundExactly(r: Reader, s: Scan, parts: seq<Part>)
    requires Agrees(r, s)
    ensures Owed(r, s) + Wanted(parts, r.at) <= Finished(Read(r, Joined(parts))) <==> WellPlaced(parts, s)
    decreases |parts|
  {
    if parts == [] {
      OwedAtEnd(r, s);
    } else if parts[0].Given? && IsQuoted(parts[0].value) {
      QuotedFoundExactly(r, s, parts);
    } else {
      TextFoundExactly(r, s, parts);
    }
  }

  lemma TextFoundExactly(r: Reader, s: Scan, parts: seq<Part>)
    requires Agrees(r, s) && parts != [] && !(parts[0].Given? && IsQuoted(parts[0].value))
    ensures Owed(r, s) + Wanted(parts, r.at) <= Finished(Read(r, Joined(parts))) <==> WellPlaced(parts, s)
    decreases |parts|, 0
  {
    hide *;
    var text, rest := PartText(parts[0]), Joined(parts[1..]);
    var r', s' := Read(r, text), Scanned(s, text);
    TextFirst(r, s, parts);
    ScanAgrees(r, s, text);
    ReadTwice(r, text, rest);
    AgreesProper(r, s);
    ReadProper(r, text);
    if s'.Broken? {
      var p :| p in Owed(r, s) && Lost(r', p);
      ReadLost(r', rest, p);
      BrokenIsBad(parts[1..], s');
    } else {
      AllFoundExactly(r', s', parts[1..]);
      AgreesProper(r', s');
      FoundStays(r', rest);
    }
  }

  lemma TextFirst(r: Reader, s: Scan, parts: seq<Part>)
    requires Agrees(r, s) && parts != [] && !(parts[0].Given? && IsQuoted(parts[0].value))
    ensures var text := PartText(parts[0]);
            && Joined(parts) == text + Joined(parts[1..])
            && Wanted(parts, r.at) == Wanted(parts[1..], r.at + |text|)
            && (WellPlaced(parts, s) <==> WellPlaced(parts[1..], Scanned(s, text)))
  {
    hide Scanned, PartText, Opens, NameOpens, Proper;
  }

  lemma QuotedFirst(r: Reader, s: Scan, parts: seq<Part>)
    requires Agrees(r, s) && parts != [] && parts[0].Given? && IsQuoted(parts[0].value)
    ensures Proper(r)
    ensures var v, text := parts[0].value, PartText(parts[0]);
            && Joined(parts) == text + Joined(parts[1..])
            && Wanted(parts, r.at) == Wanted(parts[1..], r.at + |text|) + {Piece(r.at, r.at + |text|, Content(v))}
            && (WellPlaced(parts, s) <==>
                Fits(v, r.mode, r.cur.Some?) && WellPlaced(parts[1..], Scan(ClosedMode(v), Param)))
  {
    hide Scanned, PartText, Opens, NameOpens, Proper, Content, ClosedMode;
  }

  /** A quoted parameter in its place is read, and what follows decides whether it goes on. */
  lemma QuotedRead(r: Reader, v: Value)
    requires Proper(r) && IsQuoted(v) && Fits(v, r.mode, r.cur.Some?)
    ensures var text := PartText(Given(v));
            var r', p := Read(r, text), Piece(r.at, r.at + |text|, Content(v));
            && Proper(r') && Flushed(r).found <= r'.found && r'.at == p.end
            && Agrees(r', Scan(ClosedMode(v), Param)) && Owed(r', Scan(ClosedMode(v), Param)) == {p}
  {
    hide Read, Proper, Opens, NameOpens, PartText, Literal, QuoteIdent, Agrees, Owed;
    if v.Identifier? {
      NameOf(v);
      NameRead(r, v.name);
      NamedAfter(r, v.name);
      OwedName(Read(r, QuoteIdent(v.name)), Piece(r.at, r.at + |QuoteIdent(v.name)|, v.name));
    } else {
      LiteralOf(v);
      LiteralOpens(r, Content(v));
      AfterLiteral(r, Content(v));
      OwedNow(Read(r, Literal(Content(v))), Piece(r.at, r.at + |Literal(Content(v))|, Content(v)));
    }
  }

  lemma QuotedElsewhere(r: Reader, v: Value, rest: string)
    requires Proper(r) && IsQuoted(v) && !Fits(v, r.mode, r.cur.Some?)
    ensures forall p :: p in Finished(Read(r, PartText(Given(v)) + rest)) ==> p.start != r.at
  {
    hide Read, Proper, Opens, NameOpens, PartText, Literal, QuoteIdent, Finished;
    if v.Identifier? {
      NameOf(v);
      NameElsewhere(r, v.name, rest);
    } else {
      LiteralOf(v);
      LiteralElsewhere(r, Content(v), rest);
    }
  }

  lemma FoundStays(r: Reader, s: string)
    requires Proper(r)
    ensures r.found <= Finished(Read(r, s))
  {
    hide Proper;
    ReadProper(r, s);
  }

  lemma QuotedFoundExactly(r: Reader, s: Scan, parts: seq<Part>)
    requires Agrees(r, s) && parts != [] && parts[0].Given? && IsQuoted(parts[0].value)
    ensures Owed(r, s) + Wanted(parts, r.at) <= Finished(Read(r, Joined(parts))) <==> WellPlaced(parts, s)
    decreases |parts|, 0
  {
    hide *;
    var v, text, rest := parts[0].value, PartText(parts[0]), Joined(parts[1..]);
    var p := Piece(r.at, r.at + |text|, Content(v));
    QuotedFirst(r, s, parts);
    OwedIsOlder(r, s);
    if Fits(v, r.mode, r.cur.Some?) {
      ReadTwice(r, text, rest);
      QuotedRead(r, v);
      var r' := Read(r, text);
      AllFoundExactly(r', Scan(ClosedMode(v), Param), parts[1..]);
      FoundStays(r', rest);
    } else {
      QuotedElsewhere(r, v, rest);
    }
  }

  lemma OwedIsOlder(r: Reader, s: Scan)
    requires Agrees(r, s)
    ensures Owed(r, s) <= Flushed(r).found
  {
  }

  lemma OwedNow(r: Reader, p: Piece)
    requires Proper(r) && After(r, p) && r.mode == Closing('\'')
    ensures Agrees(r, Scan(Closing('\''), Param)) && Owed(r, Scan(Closing('\''), Param)) == {p}
  {
  }

  lemma OwedName(r: Reader, p: Piece)
    requires Proper(r) && Named(r, p)
    ensures Agrees(r, Scan(ClosingName, Param)) && Owed(r, Scan(ClosingName, Param)) == {p}
  {
  }

  /** All string and identifier parameters of a rendered template are read as what they stand
      for exactly when the template is well placed, which depends on no parameter's content. */
  lemma AllQuotedReadBack(t: Template, params: map<string, Value>, trim: Trim)
    requires Rendered(t, params, trim).Ok?
    ensures Wanted(Parts(t, params, trim), 0) <= Pieces(Rendered(t, params, trim).value) <==>
            WellPlaced(Parts(t, params, trim), Scan(Plain, Nothing))
  {
    hide Rendered, Parts, Read, Finished, WellPlaced, Wanted;
    RenderedIsJoined(t, params, trim);
    AllFoundExactly(FRESH, Scan(Plain, Nothing), Parts(t, params, trim));
  }

  // ---- templates that fail ----

  /** A placeholder inside quotes is never read as its parameter, whatever that is. */
  lemma InsideQuotesFails(v: string)
    ensures Piece(2, 2 + |Literal(v)|, v) !in Pieces("'%" + Literal(v) + "%'")
    ensures !WellPlaced([Own("'%"), Given(Text(v)), Own("%'")], Scan(Plain, Nothing))
  {
    hide Literal, Pieces;
    var parts := [Own("'%"), Given(Text(v)), Own("%'")];
    QuoteScans();
    ReadsBackExactly("'%", v, "%'");
    assert parts[1..][0] == Given(Text(v));
  }

  lemma QuoteScans()
    ensures Read(FRESH, "'%").mode == InText('\'')
    ensures Scanned(Scan(Plain, Nothing), "'%") == Scan(InText('\''), Quoted)
  {
    assert "'%"[0] == '\'' && "'%"[1..] == "%" && "%"[0] == '%' && "%"[1..] == "";
    assert Step(FRESH, '\'').mode == InText('\'');
    assert Step(Step(FRESH, '\''), '%').mode == InText('\'');
    assert ScanStep(Scan(Plain, Nothing), '\'') == Scan(InText('\''), Quoted);
  }

  /** What is read instead, if the parameter begins with a letter or digit: the template's own
      percent sign, with the parameter outside every string. */
  lemma InsideQuotesEndsEarly(v: string)
    requires v != "" && IsWord(v[0])
    ensures Piece(0, 3, "%") in Pieces("'%" + Literal(v) + "%'")
  {
    hide Step, Read, Continues;
    var rest, r := Escape(v) + "'" + "%'", Reader(Closing('\''), 3, Some(Piece(0, 3, "%")), {});
    assert "'%" + Literal(v) + "%'" == "'%'" + rest && rest[0] == v[0];
    PercentClosed();
    ReadTwice(FRESH, "'%'", rest);
    ContinuesDecides(r, Piece(0, 3, "%"), rest);
    NoStringHere(rest);
  }

  lemma PercentClosed()
    ensures Read(FRESH, "'%'") == Reader(Closing('\''), 3, Some(Piece(0, 3, "%")), {})
  {
    assert Step(FRESH, '\'') == Reader(InText('\''), 1, Some(Piece(0, 0, "")), {});
    assert "" + "%" == "%";
    assert Step(Reader(InText('\''), 1, Some(Piece(0, 0, "")), {}), '%') ==
           Reader(InText('\''), 2, Some(Piece(0, 0, "%")), {});
    assert "'%'" == ['\'', '%', '\''];
    ReadThree(FRESH, '\'', '%', '\'');
  }

  lemma ReadThree(r: Reader, a: char, b: char, c: char)
    ensures Read(r, [a, b, c]) == Step(Step(Step(r, a), b), c)
  {
    hide Step;
    ReadBetween(r, a, [b], c);
    assert [a] + [b] + [c] == [a, b, c];
    ReadOne(Step(r, a), b);
  }

  lemma NoStringHere(s: string)
    requires s != "" && IsWord(s[0])
    ensures !Continues(s)
  {
  }

  /** Neighbours with only a blank between them are read as one string. */
  lemma NeighboursConcatenate(x: string, y: string)
    ensures var text := Literal(x) + " " + Literal(y); Piece(0, |text|, x + y) in Pieces(text)
    ensures !WellPlaced([Given(Text(x)), Own(" "), Given(Text(y))], Scan(Plain, Nothing))
  {
    BlankKeepsPending(x, y);
    LiteralAlone(x);
    hide Step, Literal, Read, WellPlaced, Flushed;
    var text, n := Literal(x) + " " + Literal(y), |Literal(x)|;
    var r, gap := Reader(Closing('\''), n, Some(Piece(0, n, x)), {}), Reader(Plain, n + 1, Some(Piece(0, n, x)), {});
    LiteralGoesOn(gap, y);
    assert text == Literal(x) + ([' '] + Literal(y));
    ReadTwice(FRESH, Literal(x), [' '] + Literal(y));
    ReadTwice(r, [' '], Literal(y));
    ReadOne(r, ' ');
    assert Finished(Reader(Closing('\''), |text|, Some(Piece(0, |text|, x + y)), {})) == {Piece(0, |text|, x + y)} by {
      FinishesOne(Piece(0, |text|, x + y));
    }
  }

  lemma FinishesOne(p: Piece)
    ensures Finished(Reader(Closing('\''), p.end, Some(p), {})) == {p}
  {
  }

  lemma LiteralAlone(x: string)
    ensures var p := Piece(0, |Literal(x)|, x);
            && Read(FRESH, Literal(x)) == Reader(Closing('\''), p.end, Some(p), {})
            && Step(Reader(Closing('\''), p.end, Some(p), {}), ' ') == Reader(Plain, p.end + 1, Some(p), {})
  {
    hide Literal, Read;
    LiteralOpens(FRESH, x);
  }

  lemma TextGoesOn(r: Reader)
    requires r.mode == Plain && r.cur.Some?
    ensures var p := r.cur.value;
            Step(r, '\'') == r.(mode := InText('\''), at := r.at + 1, cur := Some(Piece(p.start, p.start, p.value)))
  {
  }

  lemma LiteralGoesOn(r: Reader, y: string)
    requires r.mode == Plain && r.cur.Some?
    ensures var p := r.cur.value;
            Read(r, Literal(y)) ==
            r.(mode := Closing('\''), at := r.at + |Literal(y)|,
               cur := Some(Piece(p.start, r.at + |Literal(y)|, p.value + y)))
  {
    hide Step, Read, Escape, Literal;
    var p := r.cur.value;
    var begun := r.(mode := InText('\''), at := r.at + 1, cur := Some(Piece(p.start, p.start, p.value)));
    TextGoesOn(r);
    EscapedInText(begun, y);
    ReadBetween(r, '\'', Escape(y), '\'');
    LiteralIs(y);
    CloseText(Longer(begun, y).(at := r.at + 1 + |Escape(y)|));
  }

  lemma BlankKeepsPending(x: string, y: string)
    ensures !WellPlaced([Given(Text(x)), Own(" "), Given(Text(y))], Scan(Plain, Nothing))
  {
    var parts, after := [Given(Text(x)), Own(" "), Given(Text(y))], Scan(Closing('\''), Param);
    assert parts[1..] == [Own(" "), Given(Text(y))] && parts[1..][1..] == [Given(Text(y))];
    assert ScanStep(after, ' ') == Scan(Plain, Param) && " "[0] == ' ' && " "[1..] == "";
    hide Turn;
    assert Scanned(after, " ") == Scan(Plain, Param);
    assert !WellPlaced([Given(Text(y))], Scan(Plain, Param));
    assert !WellPlaced(parts[1..], after);
  }
}
