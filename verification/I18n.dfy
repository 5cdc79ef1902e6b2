/**
  Message templates: `Interpolate` prints one with arguments, `Capture` reads the arguments back.
  How a placeholder's name is read as a number is a parameter; nothing here depends on it.
*/
module I18n {
  import opened Wrappers

  type Numeral = string -> Option<nat>

  function Find(s: string, c: char): (at: Option<nat>)
    ensures at.Some? ==> at.value < |s| && s[at.value] == c
  {
    if s == "" then None
    else if s[0] == c then Some(0)
    else match Find(s[1..], c) case None => None case Some(i) => Some(i + 1)
  }

  lemma {:induction false} FindIsFirst(s: string, c: char)
    ensures forall i :: 0 <= i < (if Find(s, c).Some? then Find(s, c).value else |s|) ==> s[i] != c
  {
    if s != "" && s[0] != c {
      FindIsFirst(s[1..], c);
      assert forall i :: 0 < i < |s| ==> s[i] == s[1..][i - 1];
    }
  }

  function FindText(s: string, p: string): (at: Option<nat>)
    ensures at.Some? ==> at.value + |p| <= |s|
  {
    if p <= s then Some(0)
    else if s == "" then None
    else match FindText(s[1..], p) case None => None case Some(i) => Some(i + 1)
  }

  lemma {:induction false} FindTextIsFirst(s: string, p: string)
    ensures FindText(s, p).Some? ==> p <= s[FindText(s, p).value..]
    ensures forall i :: 0 <= i < (if FindText(s, p).Some? then FindText(s, p).value else |s| + 1) ==> !(p <= s[i..])
  {
    if !(p <= s) && s != "" {
      FindTextIsFirst(s[1..], p);
      assert forall i :: 0 < i <= |s| ==> s[i..] == s[1..][i - 1..];
    }
  }

  // ---------------------------------------------------------------- printing

  datatype Piece = Lit(text: string) | Arg(name: string, index: nat)

  /** The name in a placeholder that opens at the first character of `s`, if it names an argument below `n`. */
  function Named(s: string, n: nat, numeral: Numeral): (r: Option<Piece>)
    requires s != "" && s[0] == '{'
    ensures r.Some? ==> r.value.Arg? && numeral(r.value.name) == Some(r.value.index) && r.value.index < n
    ensures r.Some? ==> |r.value.name| + 2 <= |s| && s[..|r.value.name| + 2] == "{" + r.value.name + "}"
  {
    match Find(s, '}')
    case None => None
    case Some(end) =>
      match numeral(s[1..end])
      case None => None
      case Some(index) => if index < n then Some(Arg(s[1..end], index)) else None
  }

  /** The piece that starts at a brace, and its size in the template. */
  function Head(s: string, n: nat, numeral: Numeral): (r: (Piece, nat))
    requires s != "" && s[0] == '{'
    ensures 0 < r.1 <= |s|
  {
    match Named(s, n, numeral)
    case Some(arg) => (arg, |arg.name| + 2)
    case None => (Lit("{"), 1)
  }

  /** How a template is read, whatever its `n` arguments hold. */
  function Pieces(t: string, n: nat, numeral: Numeral): seq<Piece>
    decreases |t|
  {
    match Find(t, '{')
    case None => [Lit(t)]
    case Some(start) =>
      var (piece, size) := Head(t[start..], n, numeral);
      [Lit(t[..start]), piece] + Pieces(t[start..][size..], n, numeral)
  }

  function PieceText(p: Piece, args: seq<string>): string {
    match p case Lit(text) => text case Arg(_, index) => if index < |args| then args[index] else ""
  }

  function PieceSource(p: Piece): string {
    match p case Lit(text) => text case Arg(name, _) => "{" + name + "}"
  }

  function Fill(pieces: seq<Piece>, args: seq<string>): string {
    if pieces == [] then "" else PieceText(pieces[0], args) + Fill(pieces[1..], args)
  }

  function Source(pieces: seq<Piece>): string {
    if pieces == [] then "" else PieceSource(pieces[0]) + Source(pieces[1..])
  }

  lemma FillTwo(p: Piece, q: Piece, rest: seq<Piece>, args: seq<string>)
    ensures Fill([p, q] + rest, args) == PieceText(p, args) + PieceText(q, args) + Fill(rest, args)
  {
    FillOne(p, [q] + rest, args);
    FillOne(q, rest, args);
    hide *;
    assert [p, q] + rest == [p] + ([q] + rest);
  }

  lemma FillOne(p: Piece, rest: seq<Piece>, args: seq<string>)
    ensures Fill([p] + rest, args) == PieceText(p, args) + Fill(rest, args)
  {
    assert ([p] + rest)[1..] == rest;
  }

  lemma SourceTwo(p: Piece, q: Piece, rest: seq<Piece>)
    ensures Source([p, q] + rest) == PieceSource(p) + PieceSource(q) + Source(rest)
  {
    SourceOne(p, [q] + rest);
    SourceOne(q, rest);
    hide *;
    assert [p, q] + rest == [p] + ([q] + rest);
  }

  lemma SourceOne(p: Piece, rest: seq<Piece>)
    ensures Source([p] + rest) == PieceSource(p) + Source(rest)
  {
    assert ([p] + rest)[1..] == rest;
  }

  lemma FillLast(text: string, args: seq<string>)
    ensures Fill([Lit(text)], args) == text && Source([Lit(text)]) == text
  {
    assert [Lit(text)][1..] == [];
  }

  lemma Glue(a: string, b: string, c: string, d: string)
    ensures a + (b + c + d) == a + b + c + d
  {
  }

  method Interpolate(template: string, args: seq<string>, numeral: Numeral) returns (output: string)
    ensures output == Fill(Pieces(template, |args|, numeral), args)
  {
    output := "";
    var rest := template;
    ghost var all := Pieces(template, |args|, numeral);
    while Find(rest, '{').Some?
      invariant output + Fill(Pieces(rest, |args|, numeral), args) == Fill(all, args)
      decreases |rest|
    {
      var start := Find(rest, '{').value;
      var lit := rest[..start];
      FirstTwo(rest, args, numeral);
      rest := rest[start..];
      match Named(rest, |args|, numeral) {
        case Some(arg) =>
          Glue(output, lit, args[arg.index], Fill(Pieces(rest[|arg.name| + 2..], |args|, numeral), args));
          output := output + lit + args[arg.index];
          rest := rest[|arg.name| + 2..];
        case None =>
          Glue(output, lit, "{", Fill(Pieces(rest[1..], |args|, numeral), args));
          output := output + lit + "{";
          rest := rest[1..];
      }
    }
    FillLast(rest, args);
    output := output + rest;
  }

  /** The text up to and with the first brace. */
  lemma FirstTwo(t: string, args: seq<string>, numeral: Numeral)
    requires Find(t, '{').Some?
    ensures var start := Find(t, '{').value;
            var (piece, size) := Head(t[start..], |args|, numeral);
            Fill(Pieces(t, |args|, numeral), args)
              == t[..start] + PieceText(piece, args) + Fill(Pieces(t[start..][size..], |args|, numeral), args)
  {
    var start := Find(t, '{').value;
    var (piece, size) := Head(t[start..], |args|, numeral);
    FillTwo(Lit(t[..start]), piece, Pieces(t[start..][size..], |args|, numeral), args);
  }

  ghost predicate NamesArguments(pieces: seq<Piece>, n: nat, numeral: Numeral) {
    forall i :: 0 <= i < |pieces| && pieces[i].Arg? ==>
      numeral(pieces[i].name) == Some(pieces[i].index) && pieces[i].index < n
  }

  /**
    The pieces are the template itself, in order, with placeholders that name arguments; they are
    found before any argument is looked at, so what is inserted is never scanned again.
  */
  lemma {:induction false} PiecesAreTheTemplate(t: string, n: nat, numeral: Numeral)
    ensures Source(Pieces(t, n, numeral)) == t && NamesArguments(Pieces(t, n, numeral), n, numeral)
    decreases |t|
  {
    match Find(t, '{') {
      case None => FillLast(t, []);
      case Some(start) =>
        var size := Head(t[start..], n, numeral).1;
        PiecesAreTheTemplate(t[start..][size..], n, numeral);
        hide *;
        SourceOfFirstTwo(t, n, numeral);
        CutTwice(t, start, size);
    }
  }

  lemma CutTwice(t: string, a: nat, b: nat)
    requires a <= |t| && b <= |t[a..]|
    ensures t == t[..a] + t[a..][..b] + t[a..][b..]
  {
  }

  lemma SourceOfFirstTwo(t: string, n: nat, numeral: Numeral)
    requires Find(t, '{').Some?
    ensures var start := Find(t, '{').value;
            var size := Head(t[start..], n, numeral).1;
            var others := Pieces(t[start..][size..], n, numeral);
            && Source(Pieces(t, n, numeral)) == t[..start] + t[start..][..size] + Source(others)
            && (NamesArguments(others, n, numeral) ==> NamesArguments(Pieces(t, n, numeral), n, numeral))
  {
    var start := Find(t, '{').value;
    var (piece, size) := Head(t[start..], n, numeral);
    var others := Pieces(t[start..][size..], n, numeral);
    HeadIsThere(t[start..], n, numeral);
    SourceTwo(Lit(t[..start]), piece, others);
    if NamesArguments(others, n, numeral) {
      NamesTwo(Lit(t[..start]), piece, others, n, numeral);
    }
  }

  lemma HeadIsThere(s: string, n: nat, numeral: Numeral)
    requires s != "" && s[0] == '{'
    ensures PieceSource(Head(s, n, numeral).0) == s[..Head(s, n, numeral).1]
    ensures NamesArguments([Head(s, n, numeral).0], n, numeral)
  {
  }

  lemma NamesTwo(p: Piece, q: Piece, rest: seq<Piece>, n: nat, numeral: Numeral)
    requires p.Lit? && NamesArguments([q], n, numeral) && NamesArguments(rest, n, numeral)
    ensures NamesArguments([p, q] + rest, n, numeral)
  {
    assert [q][0] == q;
  }

  // ---------------------------------------------------------------- reading back

  /** A template whose every brace opens a placeholder. */
  datatype Template = Tail(lit: string) | Hole(lit: string, name: string, index: nat, rest: Template)

  function Parse(t: string, numeral: Numeral): (r: Option<Template>)
    ensures r.Some? ==> r.value.lit == Literal(t)
    decreases |t|
  {
    match Find(t, '{')
    case None => Some(Tail(t))
    case Some(start) =>
      match Find(t[start..], '}')
      case None => None
      case Some(end) =>
        match numeral(t[start..][1..end])
        case None => None
        case Some(index) =>
          match Parse(t[start..][end + 1..], numeral)
          case None => None
          case Some(rest) => Some(Hole(t[..start], t[start..][1..end], index, rest))
  }

  /** The text before the first brace. */
  function Literal(t: string): string {
    match Find(t, '{') case None => t case Some(start) => t[..start]
  }

  /** How long the value is that stands at the head of `s`, before literal `next`. */
  function ValueSize(s: string, next: string): (size: Option<nat>)
    ensures size.Some? ==> size.value <= |s|
  {
    if next == "" then Some(|s|) else FindText(s, next)
  }

  function Bind(args: seq<string>, index: nat, value: string): Option<seq<string>> {
    if index < |args| then (if args[index] == value then Some(args) else None)
    else if index == |args| then Some(args + [value])
    else None
  }

  function Match(t: Template, s: string, args: seq<string>): Option<seq<string>> {
    match t
    case Tail(lit) => if s == lit then Some(args) else None
    case Hole(lit, _, index, rest) =>
      if !(lit <= s) then None
      else match ValueSize(s[|lit|..], rest.lit)
        case None => None
        case Some(size) =>
          match Bind(args, index, s[|lit|..][..size])
          case None => None
          case Some(args') => Match(rest, s[|lit|..][size..], args')
  }

  function Captured(t: string, s: string, args: seq<string>, numeral: Numeral): Option<seq<string>> {
    match Parse(t, numeral) case None => None case Some(template) => Match(template, s, args)
  }

  method Capture(template: string, source: string, numeral: Numeral) returns (captured: Option<seq<string>>)
    ensures captured == Captured(template, source, [], numeral)
  {
    var rest, pattern := source, template;
    var args: seq<string> := [];
    var next := Find(pattern, '{');
    while next.Some?
      invariant next == Find(pattern, '{')
      invariant Captured(pattern, rest, args, numeral) == Captured(template, source, [], numeral)
      decreases |pattern|
    {
      var start := next.value;
      if !(pattern[..start] <= rest) {
        return None;
      }
      rest := rest[start..];
      var end := Find(pattern[start..], '}');
      if end.None? {
        return None;
      }
      var index := numeral(pattern[start..][1..end.value]);
      if index.None? {
        return None;
      }
      pattern := pattern[start..][end.value + 1..];
      var size := ValueSize(rest, Literal(pattern));
      if size.None? {
        return None;
      }
      var bound := Bind(args, index.value, rest[..size.value]);
      if bound.None? {
        return None;
      }
      args, rest := bound.value, rest[size.value..];
      next := Find(pattern, '{');
    }
    captured := if rest == pattern then Some(args) else None;
  }

  // ---------------------------------------------------------------- one undoes the other

  predicate InRange(t: Template, n: nat) {
    t.Hole? ==> t.index < n && InRange(t.rest, n)
  }

  function Render(t: Template, args: seq<string>): string
    requires InRange(t, |args|)
  {
    match t
    case Tail(lit) => lit
    case Hole(lit, _, index, rest) => lit + (args[index] + Render(rest, args))
  }

  lemma {:induction false} InterpolateRenders(t: string, args: seq<string>, numeral: Numeral)
    requires Parse(t, numeral).Some? && InRange(Parse(t, numeral).value, |args|)
    ensures Fill(Pieces(t, |args|, numeral), args) == Render(Parse(t, numeral).value, args)
    decreases |t|
  {
    match Find(t, '{') {
      case None =>
        FillLast(t, args);
      case Some(start) =>
        var rest := t[start..];
        var end := Find(rest, '}').value;
        var arg := Named(rest, |args|, numeral).value;
        assert |arg.name| + 2 == end + 1;
        InterpolateRenders(rest[end + 1..], args, numeral);
        FillTwo(Lit(t[..start]), arg, Pieces(rest[end + 1..], |args|, numeral), args);
    }
  }

  lemma {:induction false} MatchRenders(t: Template, s: string, args: seq<string>)
    requires Match(t, s, args).Some?
    ensures var all := Match(t, s, args).value;
            args <= all && InRange(t, |all|) && Render(t, all) == s
  {
    match t {
      case Tail(_) =>
      case Hole(lit, _, index, rest) =>
        var s' := s[|lit|..];
        var size := ValueSize(s', rest.lit).value;
        var args' := Bind(args, index, s'[..size]).value;
        MatchRenders(rest, s'[size..], args');
        var all := Match(t, s, args).value;
        assert args'[index] == s'[..size] && all[index] == args'[index];
        assert s' == s'[..size] + s'[size..];
    }
  }

  /** Reading and then printing gives back what was read, for every template and text. */
  lemma InterpolateUndoesCapture(t: string, s: string, numeral: Numeral)
    requires Captured(t, s, [], numeral).Some?
    ensures var args := Captured(t, s, [], numeral).value;
            Fill(Pieces(t, |args|, numeral), args) == s
  {
    MatchRenders(Parse(t, numeral).value, s, []);
    InterpolateRenders(t, Captured(t, s, [], numeral).value, numeral);
  }

  /**
    The arguments can be read back: placeholders first appear in order, all arguments are used,
    and each value ends where the literal after it first occurs; a value with no literal after it
    is followed by nothing.
  */
  predicate Recoverable(t: Template, args: seq<string>, seen: nat)
    requires InRange(t, |args|)
  {
    match t
    case Tail(_) => seen == |args|
    case Hole(_, _, index, rest) =>
      index <= seen && Delimited(rest, args, args[index]) &&
      Recoverable(rest, args, if index < seen then seen else seen + 1)
  }

  predicate Delimited(rest: Template, args: seq<string>, value: string)
    requires InRange(rest, |args|)
  {
    if rest.lit == "" then Render(rest, args) == ""
    else FindText(value + Render(rest, args), rest.lit) == Some(|value|)
  }

  lemma {:induction false} MatchRecovers(t: Template, args: seq<string>, seen: nat)
    requires InRange(t, |args|) && seen <= |args|
    ensures Match(t, Render(t, args), args[..seen]) == Some(args) <==> Recoverable(t, args, seen)
  {
    match t {
      case Tail(_) =>
        assert args[..|args|] == args;
      case Hole(_, _, index, rest) =>
        if Delimited(rest, args, args[index]) && index <= seen {
          HoleTaken(t, args, seen);
          MatchRecovers(rest, args, if index < seen then seen else seen + 1);
        } else {
          HoleMissed(t, args, seen);
        }
    }
  }

  lemma HoleTaken(t: Template, args: seq<string>, seen: nat)
    requires t.Hole? && InRange(t, |args|) && t.index <= seen <= |args| && Delimited(t.rest, args, args[t.index])
    ensures Match(t, Render(t, args), args[..seen]) ==
            Match(t.rest, Render(t.rest, args), args[..if t.index < seen then seen else seen + 1])
  {
    var value, tail := args[t.index], Render(t.rest, args);
    var s := value + tail;
    assert Render(t, args)[|t.lit|..] == s && s[..|value|] == value && s[|value|..] == tail;
    assert t.index == seen ==> args[..seen] + [value] == args[..seen + 1];
    assert ValueSize(s, t.rest.lit) == Some(|value|);
    hide ValueSize, Delimited, InRange;
  }

  lemma HoleMissed(t: Template, args: seq<string>, seen: nat)
    requires t.Hole? && InRange(t, |args|) && seen <= |args|
    requires !Delimited(t.rest, args, args[t.index]) || t.index > seen
    ensures Match(t, Render(t, args), args[..seen]) != Some(args)
  {
    var s := args[t.index] + Render(t.rest, args);
    assert Render(t, args)[|t.lit|..] == s;
    if Match(t, Render(t, args), args[..seen]) == Some(args) {
      var size := ValueSize(s, t.rest.lit).value;
      var bound := Bind(args[..seen], t.index, s[..size]).value;
      MatchRenders(t.rest, s[size..], bound);
    }
  }

  /** Printing and then reading gives the arguments back exactly when they can be told apart. */
  lemma CaptureUndoesInterpolate(t: string, args: seq<string>, numeral: Numeral)
    ensures Captured(t, Fill(Pieces(t, |args|, numeral), args), [], numeral) == Some(args) <==>
            var template := Parse(t, numeral);
            template.Some? && InRange(template.value, |args|) && Recoverable(template.value, args, 0)
  {
    var s := Fill(Pieces(t, |args|, numeral), args);
    if Parse(t, numeral).Some? {
      var template := Parse(t, numeral).value;
      if InRange(template, |args|) {
        InterpolateRenders(t, args, numeral);
        MatchRecovers(template, args, 0);
        assert args[..0] == [];
      } else if Match(template, s, []) == Some(args) {
        MatchRenders(template, s, []);
      }
    }
  }

  /** The template of two adjacent placeholders. */
  function TwoHoles(): Template {
    Hole("", "0", 0, Hole("", "1", 1, Tail("")))
  }

  lemma AdjacentTemplate(numeral: Numeral)
    requires numeral("0") == Some(0) && numeral("1") == Some(1)
    ensures Parse("{0}{1}", numeral) == Some(TwoHoles())
  {
    var t, u := "{0}{1}", "{1}";
    assert Parse("", numeral) == Some(Tail(""));
    BareHole(u, "1", "", numeral);
    BareHole(t, "0", u, numeral);
  }

  lemma AdjacentRecover(x: string, y: string)
    ensures InRange(TwoHoles(), 2) && (Recoverable(TwoHoles(), [x, y], 0) <==> y == "")
  {
    var last := TwoHoles().rest;
    assert Render(last, [x, y]) == "" + (y + "") == y;
    assert Delimited(Tail(""), [x, y], y);
    assert Recoverable(last, [x, y], 1);
  }

  /** Adjacent placeholders swallow one another: only an empty second value survives. */
  lemma AdjacentPlaceholders(x: string, y: string, numeral: Numeral)
    requires numeral("0") == Some(0) && numeral("1") == Some(1)
    ensures var t, args := "{0}{1}", [x, y];
            Captured(t, Fill(Pieces(t, 2, numeral), args), [], numeral) == Some(args) <==> y == ""
  {
    AdjacentTemplate(numeral);
    AdjacentRecover(x, y);
    hide *;
    CaptureUndoesInterpolate("{0}{1}", [x, y], numeral);
  }

  lemma BareHole(t: string, name: string, rest: string, numeral: Numeral)
    requires t == "{" + name + "}" + rest && |name| == 1 && name[0] != '}'
    requires numeral(name).Some? && Parse(rest, numeral).Some?
    ensures Parse(t, numeral) == Some(Hole("", name, numeral(name).value, Parse(rest, numeral).value))
  {
    assert t[0..] == t && t[1..][1..] == t[2..];
    assert Find(t[2..], '}') == Some(0) && Find(t[1..], '}') == Some(1) && Find(t, '}') == Some(2);
    assert t[1..2] == name && t[3..] == rest;
  }
}
