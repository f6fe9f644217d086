/** utils/sqltpl.go and QuoteIdent of service/migrate/sql_builder.go: placeholder
    substitution, and the quoting of values and names read back by MySQL's own rules. A char
    stands for one byte. */
module SqlTemplate {
  import opened Common

  /** A parameter. A number carries the text that %v prints for it. */
  datatype Value =
    | Nil
    | Identifier(name: string)
    | Text(text: string)
    | Bytes(bytes: string)
    | Bool(b: bool)
    | Number(digits: string)
    | Unsupported

  datatype RenderError = EmptyKey | MissingParam(key: string) | UnsupportedType(key: string)

  // ---- quoting ----

  const NUL: char := 0 as char
  const CTRL_Z: char := 26 as char

  function EscapeChar(c: char): string {
    match c
    case '\'' => "''"
    case '\\' => "\\\\"
    case '\n' => "\\n"
    case '\r' => "\\r"
    case _ => if c == NUL then "\\0" else if c == CTRL_Z then "\\Z" else [c]
  }

  ghost function Escape(s: string): string
    decreases |s|
  {
    if s == "" then "" else EscapeChar(s[0]) + Escape(s[1..])
  }

  lemma {:induction false} EscapeAppend(s: string, c: char)
    ensures Escape(s + [c]) == Escape(s) + EscapeChar(c)
    decreases |s|
  {
    if s == "" {
      assert Escape([c]) == EscapeChar(c) + Escape([c][1..]);
    } else {
      EscapeAppend(s[1..], c);
      assert (s + [c])[1..] == s[1..] + [c];
    }
  }

  method EscapeString(s: string) returns (b: string)
    ensures b == Escape(s)
  {
    b := "";
    for i := 0 to |s|
      invariant b == Escape(s[..i])
    {
      EscapeAppend(s[..i], s[i]);
      assert s[..i + 1] == s[..i] + [s[i]];
      b := b + EscapeChar(s[i]);
    }
    assert s[..|s|] == s;
  }

  ghost predicate Special(c: char) {
    c in {'\'', '\\', '\n', '\r', NUL, CTRL_Z}
  }

  /** Each special character becomes two, none of them a control character; all others stay. */
  lemma {:induction false} EscapedIsPlain(s: string)
    ensures forall c :: c in Escape(s) ==> c !in {'\n', '\r', NUL, CTRL_Z}
    ensures (forall c :: c in s ==> !Special(c)) ==> Escape(s) == s
    ensures |s| <= |Escape(s)| <= 2 * |s|
    decreases |s|
  {
    if s != "" {
      EscapedIsPlain(s[1..]);
      CharIsPlain(s[0]);
      assert s == [s[0]] + s[1..];
      hide EscapeChar, Special;
      assert forall c :: c in Escape(s) <==> c in EscapeChar(s[0]) || c in Escape(s[1..]);
      assert forall c :: c in s <==> c == s[0] || c in s[1..];
    }
  }

  lemma CharIsPlain(c: char)
    ensures forall d :: d in EscapeChar(c) ==> d !in {'\n', '\r', NUL, CTRL_Z}
    ensures if Special(c) then |EscapeChar(c)| == 2 else EscapeChar(c) == [c]
  {
  }

  /** Backquotes written twice. */
  function Doubled(s: string): string
    decreases |s|
  {
    if s == "" then "" else (if s[0] == '`' then "``" else [s[0]]) + Doubled(s[1..])
  }

  function QuoteIdent(s: string): string {
    "`" + Doubled(s) + "`"
  }

  // ---- reading literals back ----

  /** A quoted token read from the front of the input: its value and what follows it. */
  type Token = Option<(string, string)>

  function Prefixed(v: string, t: Token): Token {
    if t.None? then None else Some((v + t.value.0, t.value.1))
  }

  /** The escape sequences of the MySQL 8.0 Reference Manual, section 11.1.1 (String
      Literals); any other escaped character stands for itself. */
  function Unescaped(c: char): string {
    match c
    case '0' => [NUL]
    case 'b' => [8 as char]
    case 'n' => "\n"
    case 'r' => "\r"
    case 't' => "\t"
    case 'Z' => [CTRL_Z]
    case '%' => "\\%"
    case '_' => "\\_"
    case _ => [c]
  }

  /** The inside of a single-quoted literal, up to the quote that ends it. */
  function StringBody(s: string): Token
    decreases |s|
  {
    if s == "" then None
    else if s[0] == '\'' then
      if |s| > 1 && s[1] == '\'' then Prefixed("'", StringBody(s[2..])) else Some(("", s[1..]))
    else if s[0] == '\\' then
      if |s| == 1 then None else Prefixed(Unescaped(s[1]), StringBody(s[2..]))
    else Prefixed([s[0]], StringBody(s[1..]))
  }

  function StringLiteral(s: string): Token {
    if s != "" && s[0] == '\'' then StringBody(s[1..]) else None
  }

  /** The inside of a backquoted name, section 11.2 (Schema Object Names). */
  function NameBody(s: string): Token
    decreases |s|
  {
    if s == "" then None
    else if s[0] == '`' then
      if |s| > 1 && s[1] == '`' then Prefixed("`", NameBody(s[2..])) else Some(("", s[1..]))
    else Prefixed([s[0]], NameBody(s[1..]))
  }

  function QuotedName(s: string): Token {
    if s != "" && s[0] == '`' then NameBody(s[1..]) else None
  }

  ghost predicate StartsWith(s: string, c: char) {
    s != "" && s[0] == c
  }

  lemma PrefixedNothing(t: Token)
    ensures Prefixed("", t) == t
  {
    assert t.Some? ==> "" + t.value.0 == t.value.0;
  }

  lemma PrefixedTwice(v: string, t: Token)
    requires v != ""
    ensures Prefixed([v[0]], Prefixed(v[1..], t)) == Prefixed(v, t)
  {
    assert [v[0]] + v[1..] == v;
    if t.Some? {
      assert [v[0]] + (v[1..] + t.value.0) == v + t.value.0;
    }
  }

  lemma EscapedCharReads(c: char, s: string)
    ensures StringBody(EscapeChar(c) + s) == Prefixed([c], StringBody(s))
  {
    hide *;
    EscapeCharIs(c);
    if |EscapeChar(c)| == 1 {
      PlainReads(c, s);
    } else {
      PairReads(EscapeChar(c)[0], EscapeChar(c)[1], s);
    }
  }

  /** An escaped character is itself or a pair that stands for it. */
  lemma EscapeCharIs(c: char)
    ensures var e := EscapeChar(c);
            || e == [c]
            || (&& |e| == 2 && e == [e[0], e[1]] && (e[0] == '\\' || (e[0] == '\'' && e[1] == '\''))
                && (if e[0] == '\'' then "'" else Unescaped(e[1])) == [c])
  {
  }

  lemma PlainReads(c: char, s: string)
    requires EscapeChar(c) == [c]
    ensures StringBody([c] + s) == Prefixed([c], StringBody(s))
  {
    assert ([c] + s)[0] == c && ([c] + s)[1..] == s;
  }

  lemma PairReads(a: char, b: char, s: string)
    requires a == '\\' || (a == '\'' && b == '\'')
    ensures StringBody([a, b] + s) == Prefixed(if a == '\'' then "'" else Unescaped(b), StringBody(s))
  {
    assert ([a, b] + s)[2..] == s;
  }

  /** Escaped text inside a literal reads as the text, whatever follows. */
  lemma {:induction false} EscapedReads(v: string, s: string)
    ensures StringBody(Escape(v) + s) == Prefixed(v, StringBody(s))
    decreases |v|
  {
    if v == "" {
      assert Escape(v) + s == s;
      PrefixedNothing(StringBody(s));
    } else {
      EscapedReads(v[1..], s);
      EscapedCharReads(v[0], Escape(v[1..]) + s);
      assert Escape(v) + s == EscapeChar(v[0]) + (Escape(v[1..]) + s);
      PrefixedTwice(v, StringBody(s));
    }
  }

  /** Every string reads back as itself and the rest is left alone, exactly when the rest
      does not begin with another single quote. */
  lemma LiteralReadsBack(v: string, rest: string)
    ensures StringLiteral("'" + Escape(v) + "'" + rest) == Some((v, rest)) <==> !StartsWith(rest, '\'')
  {
    hide Escape, StringBody;
    var s := "'" + rest;
    assert ("'" + Escape(v) + "'" + rest)[1..] == Escape(v) + s;
    EscapedReads(v, s);
    QuoteEnds(rest);
    PrefixedIs(v, StringBody(s), rest);
  }

  lemma QuoteEnds(rest: string)
    ensures !StartsWith(rest, '\'') ==> StringBody("'" + rest) == Some(("", rest))
    ensures StartsWith(rest, '\'') && StringBody("'" + rest).Some? ==> StringBody("'" + rest).value.0 != ""
  {
    assert ("'" + rest)[1..] == rest;
  }

  lemma BackquoteEnds(rest: string)
    ensures !StartsWith(rest, '`') ==> NameBody("`" + rest) == Some(("", rest))
    ensures StartsWith(rest, '`') && NameBody("`" + rest).Some? ==> NameBody("`" + rest).value.0 != ""
  {
    assert ("`" + rest)[1..] == rest;
  }

  lemma PrefixedIs(v: string, t: Token, rest: string)
    ensures Prefixed(v, t) == Some((v, rest)) <==> t == Some(("", rest))
  {
    if t.Some? {
      assert t.value.0 == "" ==> v + t.value.0 == v;
      assert t.value.0 != "" ==> |v + t.value.0| != |v|;
    }
  }

  lemma {:induction false} DoubledReads(v: string, s: string)
    ensures NameBody(Doubled(v) + s) == Prefixed(v, NameBody(s))
    decreases |v|
  {
    if v == "" {
      assert Doubled(v) + s == s;
      PrefixedNothing(NameBody(s));
    } else {
      DoubledReads(v[1..], s);
      var tail := Doubled(v[1..]) + s;
      if v[0] == '`' {
        assert Doubled(v) + s == "``" + tail;
        assert ("``" + tail)[2..] == tail;
      } else {
        assert Doubled(v) + s == [v[0]] + tail;
        assert ([v[0]] + tail)[1..] == tail;
      }
      PrefixedTwice(v, NameBody(s));
    }
  }

  /** The same for names and backquotes. */
  lemma NameReadsBack(v: string, rest: string)
    ensures QuotedName(QuoteIdent(v) + rest) == Some((v, rest)) <==> !StartsWith(rest, '`')
  {
    hide Doubled, NameBody;
    var s := "`" + rest;
    assert (QuoteIdent(v) + rest)[1..] == Doubled(v) + s;
    DoubledReads(v, s);
    BackquoteEnds(rest);
    PrefixedIs(v, NameBody(s), rest);
  }

  /** What a parameter is rendered as; None for a type that is not supported. */
  ghost function Formatted(v: Value): Option<string> {
    match v
    case Nil => Some("NULL")
    case Identifier(name) => Some(QuoteIdent(name))
    case Text(text) => Some("'" + Escape(text) + "'")
    case Bytes(bytes) => Some("'" + Escape(bytes) + "'")
    case Bool(b) => Some(if b then "1" else "0")
    case Number(digits) => Some(digits)
    case Unsupported => None
  }

  /** Null, truth values and numbers have one text each; names and strings are quoted so that
      they read back as themselves before whatever does not go on from them. */
  method FormatValue(v: Value) returns (r: Option<string>)
    ensures r == Formatted(v) && (r.None? <==> v.Unsupported?)
    ensures v.Nil? ==> r == Some("NULL")
    ensures v.Bool? ==> r == Some(if v.b then "1" else "0")
    ensures v.Number? ==> r == Some(v.digits)
    ensures v.Identifier? ==>
              forall rest :: QuotedName(r.value + rest) == Some((v.name, rest)) <==> !StartsWith(rest, '`')
    ensures v.Text? || v.Bytes? ==>
              forall rest :: StringLiteral(r.value + rest) == Some((if v.Text? then v.text else v.bytes, rest)) <==>
                             !StartsWith(rest, '\'')
  {
    hide StartsWith, QuotedName, StringLiteral;
    FormattedReadsBack(v);
    match v
    case Nil => return Some("NULL");
    case Identifier(name) => return Some("`" + Doubled(name) + "`");
    case Text(text) =>
      var e := EscapeString(text);
      return Some("'" + e + "'");
    case Bytes(bytes) =>
      var e := EscapeString(bytes);
      return Some("'" + e + "'");
    case Bool(b) => return Some(if b then "1" else "0");
    case Number(digits) => return Some(digits);
    case Unsupported => return None;
  }

  lemma FormattedReadsBack(v: Value)
    ensures v.Identifier? ==>
              forall rest :: QuotedName(Formatted(v).value + rest) == Some((v.name, rest)) <==> !StartsWith(rest, '`')
    ensures v.Text? || v.Bytes? ==>
              forall rest :: StringLiteral(Formatted(v).value + rest) ==
                             Some((if v.Text? then v.text else v.bytes, rest)) <==>
                             !StartsWith(rest, '\'')
  {
    hide StartsWith, QuotedName, StringLiteral, Escape, QuoteIdent;
    forall rest
      ensures v.Identifier? ==>
                (QuotedName(Formatted(v).value + rest) == Some((v.name, rest)) <==> !StartsWith(rest, '`'))
      ensures v.Text? || v.Bytes? ==>
                (StringLiteral(Formatted(v).value + rest) == Some((if v.Text? then v.text else v.bytes, rest)) <==>
                 !StartsWith(rest, '\''))
    {
      match v
      case Identifier(name) => NameReadsBack(name, rest);
      case Text(text) => LiteralReadsBack(text, rest);
      case Bytes(bytes) => LiteralReadsBack(bytes, rest);
      case _ =>
    }
  }

  // ---- templates ----

  /** A template taken apart: text, placeholder, text, ... */
  datatype Template = Tail(text: string) | Cut(before: string, raw: string, rest: Template)

  ghost predicate At(s: string, mark: string, i: int) {
    0 <= i <= |s| - |mark| && s[i..i + |mark|] == mark
  }

  /** The leftmost occurrence. */
  ghost predicate FirstAt(s: string, mark: string, i: int) {
    At(s, mark, i) && forall j :: 0 <= j < i ==> !At(s, mark, j)
  }

  ghost predicate Without(s: string, mark: string) {
    forall i :: !At(s, mark, i)
  }

  /** Each placeholder is the leftmost "{{" of what is left and the leftmost "}}" after it; a
      "{{" that is never closed is plain text. */
  ghost predicate IsTemplate(sql: string, t: Template)
    decreases t
  {
    match t
    case Tail(text) =>
      text == sql && (Without(sql, "{{") || exists i :: FirstAt(sql, "{{", i) && Without(sql[i + 2..], "}}"))
    case Cut(before, raw, rest) =>
      && FirstAt(sql, "{{", |before|) && sql[..|before|] == before
      && FirstAt(sql[|before| + 2..], "}}", |raw|) && sql[|before| + 2..][..|raw|] == raw
      && IsTemplate(sql[|before| + 2..][|raw| + 2..], rest)
  }

  ghost function Source(t: Template): string {
    match t
    case Tail(text) => text
    case Cut(before, raw, rest) => before + "{{" + raw + "}}" + Source(rest)
  }

  /** Nothing of the template is lost when it is taken apart. */
  lemma {:induction false} SourceIsKept(sql: string, t: Template)
    requires IsTemplate(sql, t)
    ensures Source(t) == sql
    decreases t
  {
    if t.Cut? {
      var tail := sql[|t.before| + 2..];
      SourceIsKept(tail[|t.raw| + 2..], t.rest);
      hide At, Without;
      CutThere(sql, "{{", |t.before|);
      CutThere(tail, "}}", |t.raw|);
      Regroup(t.before, "{{", t.raw, "}}", Source(t.rest));
    }
  }

  lemma Regroup(a: string, open: string, b: string, close: string, c: string)
    ensures a + open + b + close + c == a + open + (b + close + c)
  {
  }

  lemma CutThere(s: string, mark: string, i: int)
    requires At(s, mark, i)
    ensures s == s[..i] + mark + s[i + |mark|..]
  {
  }

  lemma FirstUnique(s: string, mark: string, i: int, j: int)
    requires FirstAt(s, mark, i) && FirstAt(s, mark, j)
    ensures i == j
  {
  }

  /** There is one way to take it apart. */
  lemma {:induction false} TemplateUnique(sql: string, a: Template, b: Template)
    requires IsTemplate(sql, a) && IsTemplate(sql, b)
    ensures a == b
    decreases a
  {
    if a.Cut? && b.Cut? {
      FirstUnique(sql, "{{", |a.before|, |b.before|);
      var tail := sql[|a.before| + 2..];
      FirstUnique(tail, "}}", |a.raw|, |b.raw|);
      TemplateUnique(tail[|a.raw| + 2..], a.rest, b.rest);
    } else if a.Cut? {
      TailExcludesCut(sql, b.text, a);
    } else if b.Cut? {
      TailExcludesCut(sql, a.text, b);
    }
  }

  lemma TailExcludesCut(sql: string, text: string, t: Template)
    requires t.Cut? && IsTemplate(sql, t)
    ensures !IsTemplate(sql, Tail(text))
  {
    var i := |t.before|;
    assert FirstAt(sql, "{{", i) && At(sql[i + 2..], "}}", |t.raw|);
    assert At(sql, "{{", i);
    forall j | FirstAt(sql, "{{", j)
      ensures !Without(sql[j + 2..], "}}")
    {
      FirstUnique(sql, "{{", i, j);
    }
  }

  type Trim = string -> string

  function Lookup(params: map<string, Value>, key: string): Result<Value, RenderError> {
    if key == "" then Err(EmptyKey) else if key !in params then Err(MissingParam(key)) else Ok(params[key])
  }

  /** One substitution from left to right; the first bad placeholder decides the error. What
      is inserted is never looked at again. */
  ghost function Rendered(t: Template, params: map<string, Value>, trim: Trim): Result<string, RenderError> {
    match t
    case Tail(text) => Ok(text)
    case Cut(before, raw, rest) =>
      var key := trim(raw);
      match Lookup(params, key)
      case Err(e) => Err(e)
      case Ok(v) =>
        if Formatted(v).None? then Err(UnsupportedType(key))
        else
          match Rendered(rest, params, trim)
          case Err(e) => Err(e)
          case Ok(s) => Ok(before + Formatted(v).value + s)
  }

  /** The keys of the placeholders, in order. */
  ghost function Keys(t: Template, trim: Trim): seq<string> {
    match t
    case Tail(_) => []
    case Cut(_, raw, rest) => [trim(raw)] + Keys(rest, trim)
  }

  ghost predicate Usable(params: map<string, Value>, key: string) {
    key != "" && key in params && !params[key].Unsupported?
  }

  ghost predicate FirstBad(params: map<string, Value>, keys: seq<string>, i: nat) {
    i < |keys| && !Usable(params, keys[i]) && forall k :: 0 <= k < i ==> Usable(params, keys[k])
  }

  lemma FirstBadTail(params: map<string, Value>, key: string, rest: seq<string>, i: nat)
    ensures FirstBad(params, [key] + rest, i) <==>
            if Usable(params, key) then i > 0 && FirstBad(params, rest, i - 1) else i == 0
  {
    hide Usable;
    var keys := [key] + rest;
    assert keys[0] == key && forall k :: 0 < k < |keys| ==> keys[k] == rest[k - 1];
    if i > 0 && FirstBad(params, keys, i) {
      assert Usable(params, keys[0]) && forall k :: 0 <= k < i - 1 ==> rest[k] == keys[k + 1];
    }
  }

  /** If a key is empty, missing, or of an unsupported type, the first such key is the error. */
  lemma {:induction false} FirstBadKeyFails(t: Template, params: map<string, Value>, trim: Trim, i: nat)
    requires FirstBad(params, Keys(t, trim), i)
    ensures var key := Keys(t, trim)[i];
            Rendered(t, params, trim) == Err(if key == "" then EmptyKey
                                             else if key !in params then MissingParam(key)
                                             else UnsupportedType(key))
    decreases t
  {
    var key := trim(t.raw);
    hide Usable, Formatted, FirstBad;
    FirstBadTail(params, key, Keys(t.rest, trim), i);
    UsableIs(params, key);
    if i > 0 {
      FirstBadKeyFails(t.rest, params, trim, i - 1);
    }
  }

  /** Otherwise rendering succeeds. */
  lemma {:induction false} UsableKeysRender(t: Template, params: map<string, Value>, trim: Trim)
    requires forall key :: key in Keys(t, trim) ==> Usable(params, key)
    ensures Rendered(t, params, trim).Ok?
    decreases t
  {
    if t.Cut? {
      hide Usable, Formatted;
      assert Keys(t, trim)[0] == trim(t.raw);
      UsableIs(params, trim(t.raw));
      UsableKeysRender(t.rest, params, trim);
    }
  }

  lemma UsableIs(params: map<string, Value>, key: string)
    ensures Usable(params, key) <==> key != "" && key in params && Formatted(params[key]).Some?
    ensures key in params ==> (Formatted(params[key]).None? <==> params[key].Unsupported?)
  {
  }

  /** strings.Index: the leftmost occurrence, or -1. */
  method Index(s: string, mark: string) returns (i: int)
    requires mark != ""
    ensures i == -1 ==> Without(s, mark)
    ensures i != -1 ==> 0 <= i <= |s| - |mark| && FirstAt(s, mark, i)
  {
    i := 0;
    while i + |mark| <= |s|
      invariant 0 <= i && forall j :: 0 <= j < i ==> !At(s, mark, j)
    {
      if s[i..i + |mark|] == mark {
        return;
      }
      i := i + 1;
    }
    i := -1;
  }

  lemma {:induction false} Leftmost(s: string, mark: string, i: int) returns (j: int)
    requires At(s, mark, i)
    ensures FirstAt(s, mark, j)
    decreases i
  {
    if k :| 0 <= k < i && At(s, mark, k) {
      j := Leftmost(s, mark, k);
    } else {
      j := i;
    }
  }

  /** Every text can be taken apart. */
  lemma {:induction false} TakeApart(sql: string) returns (t: Template)
    ensures IsTemplate(sql, t)
    decreases |sql|
  {
    t := Tail(sql);
    if i :| At(sql, "{{", i) {
      var p := Leftmost(sql, "{{", i);
      var tail := sql[p + 2..];
      if j :| At(tail, "}}", j) {
        var q := Leftmost(tail, "}}", j);
        var rest := TakeApart(tail[q + 2..]);
        t := Cut(sql[..p], tail[..q], rest);
      }
    }
  }

  /** The code's two searches find the next cut. */
  lemma CutFound(s: string, t: Template, p: int, q: int)
    requires IsTemplate(s, t) && FirstAt(s, "{{", p) && FirstAt(s[p + 2..], "}}", q)
    ensures t.Cut? && t.before == s[..p] && t.raw == s[p + 2..][..q] && IsTemplate(s[p + 2..][q + 2..], t.rest)
  {
    if t.Cut? {
      FirstUnique(s, "{{", p, |t.before|);
      FirstUnique(s[p + 2..], "}}", q, |t.raw|);
    } else {
      forall i | FirstAt(s, "{{", i)
        ensures !Without(s[i + 2..], "}}")
      {
        FirstUnique(s, "{{", i, p);
        assert At(s[p + 2..], "}}", q);
      }
    }
  }

  lemma TailFound(s: string, t: Template)
    requires IsTemplate(s, t) && IsTemplate(s, Tail(s))
    ensures t == Tail(s)
  {
    TemplateUnique(s, t, Tail(s));
  }

  lemma OnlyTemplate(sql: string, t: Template)
    requires IsTemplate(sql, t)
    ensures forall u :: IsTemplate(sql, u) ==> u == t
  {
    forall u | IsTemplate(sql, u)
      ensures u == t
    {
      TemplateUnique(sql, u, t);
    }
  }

  /** What is already written, then the rest. */
  ghost function After(b: string, r: Result<string, RenderError>): Result<string, RenderError> {
    match r
    case Err(e) => Err(e)
    case Ok(s) => Ok(b + s)
  }

  lemma AfterNothing(r: Result<string, RenderError>)
    ensures After("", r) == r
  {
    assert r.Ok? ==> "" + r.value == r.value;
  }

  lemma AfterMore(b: string, c: string, r: Result<string, RenderError>)
    ensures After(b, After(c, r)) == After(b + c, r)
  {
    assert r.Ok? ==> b + (c + r.value) == b + c + r.value;
  }

  lemma NothingInside(mark: string)
    requires mark != ""
    ensures Without("", mark)
  {
  }

  /** The two searches of the loop: where the next placeholder opens and closes. */
  method NextCut(s: string, ghost t: Template) returns (start: int, end: int)
    requires IsTemplate(s, t)
    ensures start == -1 || end == -1 ==> t == Tail(s)
    ensures start != -1 ==> 0 <= start <= |s|
    ensures start != -1 && end != -1 ==>
              && start + 2 <= end && end + 2 <= |s|
              && t.Cut? && t.before == s[..start] && t.raw == s[start + 2..end] && IsTemplate(s[end + 2..], t.rest)
  {
    hide FirstAt, Without, At;
    end := -1;
    start := Index(s, "{{");
    if start == -1 {
      TailFound(s, t);
      return;
    }
    end := Index(s[start + 2..], "}}");
    if end == -1 {
      TailFound(s, t);
      return;
    }
    CutFound(s, t, start, end);
    assert s[start + 2..][end + 2..] == s[start + 2 + end + 2..];
    assert s[start + 2..][..end] == s[start + 2..start + 2 + end];
    end := start + 2 + end;
  }

  /** RenderTemplate, for any way of trimming the key: the result is that of the one way to
      take the template apart. */
  method RenderTemplate(sql: string, params: map<string, Value>, trim: Trim) returns (r: Result<string, RenderError>)
    ensures forall t :: IsTemplate(sql, t) ==> r == Rendered(t, params, trim)
  {
    ghost var t := TakeApart(sql);
    OnlyTemplate(sql, t);
    var b := "";
    var i := 0;
    ghost var left := t;
    var s := sql;
    hide *;
    AfterNothing(Rendered(t, params, trim));
    while i < |sql|
      invariant 0 <= i <= |sql| && s == sql[i..] && IsTemplate(s, left)
      invariant Rendered(t, params, trim) == After(b, Rendered(left, params, trim))
      decreases |sql| - i
    {
      var start, end := NextCut(s, left);
      if start == -1 || end == -1 {
        TailRendered(b, s, params, trim);
        b := WriteTail(b, s, start);
        return Ok(b);
      }
      var key := trim(s[start + 2..end]);
      CutRendered(b, left, params, trim);
      var found := Lookup(params, key);
      if found.Err? {
        return Err(found.error);
      }
      var v := FormatValue(found.value);
      if v.None? {
        return Err(UnsupportedType(key));
      }
      b := b + s[..start] + v.value;
      left := left.rest;
      i := i + end + 2;
      s := s[end + 2..];
    }
    EmptyTail(left);
    TailRendered(b, "", params, trim);
    r := Ok(b);
  }

  /** No placeholder is left: the text is written as it is, in one piece or in two. */
  method WriteTail(b: string, s: string, start: int) returns (r: string)
    requires start == -1 || 0 <= start <= |s|
    ensures r == b + s
  {
    if start == -1 {
      return b + s;
    }
    assert b + s[..start] + s[start..] == b + s;
    return b + s[..start] + s[start..];
  }

  lemma TailRendered(b: string, s: string, params: map<string, Value>, trim: Trim)
    ensures After(b, Rendered(Tail(s), params, trim)) == Ok(b + s)
    ensures b + "" == b
  {
  }

  lemma EmptyTail(t: Template)
    requires IsTemplate("", t)
    ensures t == Tail("")
  {
    NothingInside("{{");
    TailFound("", t);
  }

  lemma CutRendered(b: string, t: Template, params: map<string, Value>, trim: Trim)
    requires t.Cut?
    ensures var key := trim(t.raw);
            After(b, Rendered(t, params, trim)) ==
            match Lookup(params, key)
            case Err(e) => Err(e)
            case Ok(v) =>
              if Formatted(v).None? then Err(UnsupportedType(key))
              else After(b + t.before + Formatted(v).value, Rendered(t.rest, params, trim))
  {
    var found := Lookup(params, trim(t.raw));
    if found.Ok? && Formatted(found.value).Some? {
      var v := Formatted(found.value).value;
      AfterMore(b, t.before + v, Rendered(t.rest, params, trim));
      assert b + (t.before + v) == b + t.before + v;
    }
  }

  // ---- what is inserted is read back ----

  /** Two string placeholders without text between them merge: MySQL reads one literal with a
      quote in the middle. */
  lemma AdjacentLiteralsMerge(x: string, y: string)
    ensures StringLiteral("'" + Escape(x) + "'" + "'" + Escape(y) + "'") == Some((x + "'" + y, ""))
  {
    hide Escape, StringBody;
    var tail := Escape(y) + "'";
    assert ("'" + Escape(x) + "'" + "'" + Escape(y) + "'")[1..] == Escape(x) + ("''" + tail);
    EscapedReads(x, "''" + tail);
    DoubleQuoteReads(tail);
    EscapedReads(y, "'");
    QuoteEnds("");
    assert "'" + "" == "'";
    assert y + "" == y && x + ("'" + y) == x + "'" + y;
  }

  lemma DoubleQuoteReads(s: string)
    ensures StringBody("''" + s) == Prefixed("'", StringBody(s))
  {
    assert ("''" + s)[2..] == s;
  }
}
