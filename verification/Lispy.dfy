/** The reader of the acceptance language in `benchmark/lis.py`: a text is cut into tokens
    by padding the parentheses and splitting at white space, and a recursive reader pops
    the tokens of one expression off the front of a shared list. How an atom is converted
    to a number or a symbol is a parameter. */
module Lispy {

  datatype Expr<A> = Atom(value: A) | Stmt(items: seq<Expr<A>>)

  // SyntaxError is raised in two places, IndexError by `tokens[0]` on an exhausted list.
  datatype Result<T> = Ok(value: T) | UnexpectedEof | UnexpectedClose | IndexError

  // ---------- tokens ----------

  // White space as `str.split` knows it.
  predicate Space(c: char) {
    var n := c as int;
    || 0x09 <= n <= 0x0D || 0x1C <= n <= 0x20 || n == 0x85 || n == 0xA0 || n == 0x1680
    || 0x2000 <= n <= 0x200A || n == 0x2028 || n == 0x2029 || n == 0x202F || n == 0x205F || n == 0x3000
  }

  predicate Paren(c: char) { c == '(' || c == ')' }

  // `s.replace(c, t)` for a single character c.
  function Replace(s: string, c: char, t: string): string {
    if s == [] then [] else (if s[0] == c then t else [s[0]]) + Replace(s[1..], c, t)
  }

  // The longest start of s without white space.
  function Word(s: string): (w: string)
    ensures w <= s
    ensures s != [] && !Space(s[0]) ==> w != []
  {
    if s == [] || Space(s[0]) then [] else
      var w := Word(s[1..]);
      assert s == [s[0]] + s[1..];
      [s[0]] + w
  }

  // `s.split()`
  function Split(s: string): seq<string>
    decreases |s|
  {
    if s == [] then []
    else if Space(s[0]) then Split(s[1..])
    else [Word(s)] + Split(s[|Word(s)|..])
  }

  function Padded(s: string): string {
    Replace(Replace(s, '(', " ( "), ')', " ) ")
  }

  // `_tokenize`
  function Tokenize(s: string): seq<string> {
    Split(Padded(s))
  }

  // What the tokens are meant to be: every parenthesis is one, and so is every longest
  // stretch of characters that are neither parentheses nor white space.
  predicate Plain(c: char) { !Space(c) && !Paren(c) }

  function Run(s: string): (w: string)
    ensures w <= s && (forall c <- w :: Plain(c))
    ensures |w| < |s| ==> !Plain(s[|w|])
  {
    if s == [] || !Plain(s[0]) then [] else
      var w := Run(s[1..]);
      assert s == [s[0]] + s[1..];
      [s[0]] + w
  }

  function Lex(s: string): seq<string>
    decreases |s|
  {
    if s == [] then []
    else if Space(s[0]) then Lex(s[1..])
    else if Paren(s[0]) then [[s[0]]] + Lex(s[1..])
    else [Run(s)] + Lex(s[|Run(s)|..])
  }

  lemma {:induction false} ReplaceJoined(s: string, t: string, c: char, u: string)
    ensures Replace(s + t, c, u) == Replace(s, c, u) + Replace(t, c, u)
  {
    if s == [] {
      assert s + t == t;
    } else {
      assert (s + t)[1..] == s[1..] + t;
      ReplaceJoined(s[1..], t, c, u);
    }
  }

  lemma {:induction false} ReplaceNothing(s: string, c: char, u: string)
    requires c !in s
    ensures Replace(s, c, u) == s
  {
    if s != [] {
      ReplaceNothing(s[1..], c, u);
      assert s == [s[0]] + s[1..];
    }
  }

  lemma PaddedJoined(s: string, t: string)
    ensures Padded(s + t) == Padded(s) + Padded(t)
  {
    ReplaceJoined(s, t, '(', " ( ");
    ReplaceJoined(Replace(s, '(', " ( "), Replace(t, '(', " ( "), ')', " ) ");
  }

  lemma PaddedPlain(w: string)
    requires forall c <- w :: !Paren(c)
    ensures Padded(w) == w
  {
    ReplaceNothing(w, '(', " ( ");
    ReplaceNothing(w, ')', " ) ");
  }

  lemma ReplaceOne(c: char, u: string)
    ensures Replace([c], c, u) == u
  {
    assert Replace([c][1..], c, u) == [];
  }

  lemma PaddedParen(c: char)
    requires Paren(c)
    ensures Padded([c]) == [' ', c, ' ']
  {
    if c == '(' {
      ReplaceOne('(', " ( ");
      ReplaceNothing(" ( ", ')', " ) ");
    } else {
      ReplaceNothing(")", '(', " ( ");
      ReplaceOne(')', " ) ");
    }
  }

  // A word that white space follows, or nothing.
  lemma {:induction false} WordThen(w: string, rest: string)
    requires (forall c <- w :: !Space(c)) && (rest == [] || Space(rest[0]))
    ensures Word(w + rest) == w
  {
    if w == [] {
      assert w + rest == rest;
    } else {
      assert (w + rest)[1..] == w[1..] + rest;
      WordThen(w[1..], rest);
      assert w == [w[0]] + w[1..];
    }
  }

  lemma SplitWord(w: string, rest: string)
    requires w != [] && (forall c <- w :: !Space(c)) && (rest == [] || Space(rest[0]))
    ensures Split(w + rest) == [w] + Split(rest)
  {
    WordThen(w, rest);
    assert (w + rest)[|w|..] == rest;
  }

  lemma SplitPaddedParen(c: char, rest: string)
    requires Paren(c)
    ensures Split([' ', c, ' '] + rest) == [[c]] + Split(rest)
  {
    var x := [' ', c, ' '] + rest;
    assert x[1..] == [c] + ([' '] + rest);
    SplitWord([c], [' '] + rest);
    assert ([' '] + rest)[1..] == rest;
  }

  // For every text, padding and splitting finds exactly those tokens.
  lemma {:induction false} TokenizeIsLex(s: string)
    ensures Tokenize(s) == Lex(s)
    decreases |s|
  {
    if s != [] {
      var c := s[0];
      assert s == [c] + s[1..];
      PaddedJoined([c], s[1..]);
      if Space(c) {
        PaddedPlain([c]);
        TokenizeIsLex(s[1..]);
        assert ([c] + Padded(s[1..]))[1..] == Padded(s[1..]);
      } else if Paren(c) {
        PaddedParen(c);
        SplitPaddedParen(c, Padded(s[1..]));
        TokenizeIsLex(s[1..]);
      } else {
        var w := Run(s);
        var rest := s[|w|..];
        assert s == w + rest;
        PaddedJoined(w, rest);
        PaddedPlain(w);
        PaddedStart(rest);
        SplitWord(w, Padded(rest));
        TokenizeIsLex(rest);
      }
    }
  }

  lemma PaddedStart(s: string)
    requires s == [] || !Plain(s[0])
    ensures Padded(s) == [] || Space(Padded(s)[0])
  {
    if s == [] {
      PaddedPlain(s);
    } else {
      assert s == [s[0]] + s[1..];
      PaddedJoined([s[0]], s[1..]);
      if Paren(s[0]) { PaddedParen(s[0]); } else { PaddedPlain([s[0]]); }
    }
  }

  // ---------- expressions ----------

  // `_read_from_tokens` on an immutable list: its result and the tokens it leaves.
  function Read<A>(ts: seq<string>, atom: string -> A): (r: (Result<Expr<A>>, seq<string>))
    ensures |r.1| <= |ts| && (r.0.Ok? ==> |r.1| < |ts|)
    decreases |ts|, 0
  {
    if ts == [] then (UnexpectedEof, [])
    else if ts[0] == "(" then
      var (items, rest) := ReadItems(ts[1..], atom);
      (match items
       case Ok(v) => Ok(Stmt(v))
       case UnexpectedEof => UnexpectedEof
       case UnexpectedClose => UnexpectedClose
       case IndexError => IndexError, rest)
    else if ts[0] == ")" then (UnexpectedClose, ts[1..])
    else (Ok(Atom(atom(ts[0]))), ts[1..])
  }

  type Items<A> = (Result<seq<Expr<A>>>, seq<string>)

  // Its loop: the items up to the closing parenthesis, which is popped as well.
  function ReadItems<A>(ts: seq<string>, atom: string -> A): (r: Items<A>)
    ensures |r.1| <= |ts|
    decreases |ts|, 1
  {
    if ts == [] then (IndexError, [])
    else if ts[0] == ")" then (Ok([]), ts[1..])
    else
      var (item, rest) := Read(ts, atom);
      match item
      case Ok(v) =>
        var (items, rest') := ReadItems(rest, atom);
        (Prepend(v, items), rest')
      case UnexpectedEof => (UnexpectedEof, rest)
      case UnexpectedClose => (UnexpectedClose, rest)
      case IndexError => (IndexError, rest)
  }

  function Prepend<T>(v: T, r: Result<seq<T>>): Result<seq<T>> {
    match r
    case Ok(vs) => Ok([v] + vs)
    case UnexpectedEof => UnexpectedEof
    case UnexpectedClose => UnexpectedClose
    case IndexError => IndexError
  }

  function Parse<A>(s: string, atom: string -> A): Result<Expr<A>> {
    Read(Tokenize(s), atom).0
  }

  // ---------- printing and reading back ----------

  // A token that can stand for an atom.
  predicate AtomToken(t: string) {
    t != [] && forall c <- t :: Plain(c)
  }

  predicate WellFormed(e: Expr<string>) {
    match e
    case Atom(t) => AtomToken(t)
    case Stmt(items) => forall i :: 0 <= i < |items| ==> WellFormed(items[i])
  }

  // The tokens of an expression whose atoms are still tokens.
  function Tokens(e: Expr<string>): seq<string>
    decreases e, 0
  {
    match e
    case Atom(t) => [t]
    case Stmt(items) => ["("] + TokensOf(items) + [")"]
  }

  function TokensOf(es: seq<Expr<string>>): seq<string>
    decreases es, 0
  {
    if es == [] then [] else Tokens(es[0]) + TokensOf(es[1..])
  }

  // An expression with its atoms converted.
  function Converted<A>(e: Expr<string>, atom: string -> A): Expr<A>
    decreases e, 0
  {
    match e
    case Atom(t) => Atom(atom(t))
    case Stmt(items) => Stmt(AllConverted(items, atom))
  }

  function AllConverted<A>(es: seq<Expr<string>>, atom: string -> A): seq<Expr<A>>
    decreases es, 0
  {
    if es == [] then [] else [Converted(es[0], atom)] + AllConverted(es[1..], atom)
  }

  lemma NoParenthesis(t: string)
    requires AtomToken(t)
    ensures t != "(" && t != ")"
  {
    assert t[0] in t;
  }

  lemma {:induction false} ReadTokens<A>(e: Expr<string>, rest: seq<string>, atom: string -> A)
    requires WellFormed(e)
    ensures Read(Tokens(e) + rest, atom) == (Ok(Converted(e, atom)), rest)
    decreases e, 1
  {
    match e {
      case Atom(t) =>
        NoParenthesis(t);
        assert ([t] + rest)[1..] == rest;
      case Stmt(items) =>
        var ts := Tokens(e) + rest;
        assert ts[1..] == TokensOf(items) + ([")"] + rest);
        ReadTokensOf(items, rest, atom);
    }
  }

  lemma {:induction false} ReadTokensOf<A>(es: seq<Expr<string>>, rest: seq<string>, atom: string -> A)
    requires forall i :: 0 <= i < |es| ==> WellFormed(es[i])
    ensures ReadItems(TokensOf(es) + ([")"] + rest), atom) == (Ok(AllConverted(es, atom)), rest)
    decreases es, 0
  {
    var ts := TokensOf(es) + ([")"] + rest);
    if es == [] {
      assert ts[1..] == rest;
    } else {
      var more := TokensOf(es[1..]) + ([")"] + rest);
      assert ts == Tokens(es[0]) + more;
      ReadTokens(es[0], more, atom);
      ReadTokensOf(es[1..], rest, atom);
      FirstToken(es[0]);
      assert ts[0] == Tokens(es[0])[0];
    }
  }

  lemma FirstToken(e: Expr<string>)
    requires WellFormed(e)
    ensures Tokens(e) != [] && Tokens(e)[0] != ")"
  {
    if e.Atom? { NoParenthesis(e.value); }
  }

  // The usual way to write an expression: one space between items.
  function Printed(e: Expr<string>): string
    decreases e, 0
  {
    match e
    case Atom(t) => t
    case Stmt(items) => "(" + PrintedItems(items) + ")"
  }

  function PrintedItems(es: seq<Expr<string>>): string
    decreases es, 0
  {
    if es == [] then "" else
      Printed(es[0]) + (if |es| == 1 then "" else " " + PrintedItems(es[1..]))
  }

  // Text that cannot go on an atom before it.
  predicate Apart(s: string) {
    s == [] || !Plain(s[0])
  }

  lemma {:induction false} RunThen(w: string, rest: string)
    requires (forall c <- w :: Plain(c)) && Apart(rest)
    ensures Run(w + rest) == w
  {
    if w == [] {
      assert w + rest == rest;
    } else {
      assert (w + rest)[1..] == w[1..] + rest;
      RunThen(w[1..], rest);
      assert w == [w[0]] + w[1..];
    }
  }

  lemma LexSpace(rest: string)
    ensures Lex([' '] + rest) == Lex(rest)
  {
    assert ([' '] + rest)[1..] == rest;
  }

  lemma LexParen(c: char, rest: string)
    requires Paren(c)
    ensures Lex([c] + rest) == [[c]] + Lex(rest)
  {
    assert ([c] + rest)[1..] == rest;
  }

  lemma LexAtom(t: string, rest: string)
    requires AtomToken(t) && Apart(rest)
    ensures Lex(t + rest) == [t] + Lex(rest)
  {
    RunThen(t, rest);
    assert t[0] in t;
    assert (t + rest)[|t|..] == rest;
  }

  lemma {:induction false} LexPrinted(e: Expr<string>, rest: string)
    requires WellFormed(e) && Apart(rest)
    ensures Lex(Printed(e) + rest) == Tokens(e) + Lex(rest)
    decreases e, 1
  {
    hide Lex, PrintedItems, TokensOf;
    match e {
      case Atom(t) =>
        LexAtom(t, rest);
      case Stmt(items) =>
        var close := ")" + rest;
        var body := PrintedItems(items) + close;
        assert Printed(e) + rest == "(" + body;
        LexParen('(', body);
        LexItems(items, close);
        LexParen(')', rest);
        assert Tokens(e) + Lex(rest) == ["("] + (TokensOf(items) + ([")"] + Lex(rest)));
    }
  }

  lemma {:induction false} LexItems(es: seq<Expr<string>>, rest: string)
    requires (forall i :: 0 <= i < |es| ==> WellFormed(es[i])) && Apart(rest)
    ensures Lex(PrintedItems(es) + rest) == TokensOf(es) + Lex(rest)
    decreases es, 0
  {
    hide Lex, Printed, Tokens;
    if es == [] {
      assert PrintedItems(es) + rest == rest;
    } else if |es| == 1 {
      assert PrintedItems(es) + rest == Printed(es[0]) + rest;
      LexPrinted(es[0], rest);
      assert TokensOf(es) == Tokens(es[0]) + TokensOf([]);
    } else {
      var more := PrintedItems(es[1..]) + rest;
      assert PrintedItems(es) + rest == Printed(es[0]) + ([' '] + more);
      LexPrinted(es[0], [' '] + more);
      LexSpace(more);
      LexItems(es[1..], rest);
    }
  }

  // Every expression, printed, parses to itself with its atoms converted.
  lemma RoundTrip<A>(e: Expr<string>, atom: string -> A)
    requires WellFormed(e)
    ensures Parse(Printed(e), atom) == Ok(Converted(e, atom))
  {
    LexPrinted(e, []);
    assert Printed(e) + [] == Printed(e);
    assert Tokens(e) + [] == Tokens(e);
    TokenizeIsLex(Printed(e));
    ReadTokens(e, [], atom);
  }

  // ---------- exactly when parsing succeeds ----------

  // Opening minus closing parentheses.
  function Depth(ts: seq<string>): int {
    if ts == [] then 0 else Depth(ts[..|ts| - 1]) + Change(ts[|ts| - 1])
  }

  function Change(t: string): int {
    if t == "(" then 1 else if t == ")" then -1 else 0
  }

  // The first k tokens are the shortest start that closes what it opens.
  predicate Closes(ts: seq<string>, k: nat) {
    0 < k <= |ts| && Depth(ts[..k]) == 0 && forall j :: 0 < j < k ==> Depth(ts[..j]) > 0
  }

  // The first k tokens close the list whose opening parenthesis is already read.
  predicate ClosesList(ts: seq<string>, k: nat) {
    0 < k <= |ts| && Depth(ts[..k]) == -1 && forall j :: 0 <= j < k ==> Depth(ts[..j]) >= 0
  }

  lemma {:induction false} DepthJoined(s: seq<string>, t: seq<string>)
    ensures Depth(s + t) == Depth(s) + Depth(t)
  {
    if t == [] {
      assert s + t == s;
    } else {
      var n := |t| - 1;
      DepthJoined(s, t[..n]);
      assert (s + t)[..|s + t| - 1] == s + t[..n];
    }
  }

  // Depth after k tokens, counted from the a-th.
  lemma DepthFrom(ts: seq<string>, a: nat, k: nat)
    requires a <= k <= |ts|
    ensures Depth(ts[..k]) == Depth(ts[..a]) + Depth(ts[a..][..k - a])
  {
    assert ts[..k] == ts[..a] + ts[a..][..k - a];
    DepthJoined(ts[..a], ts[a..][..k - a]);
  }

  lemma DepthOne(ts: seq<string>)
    requires ts != []
    ensures Depth(ts[..1]) == Change(ts[0]) && Depth(ts[..0]) == 0
  {
    assert ts[..1][..0] == [] && ts[..1] == [ts[0]];
  }

  lemma ClosesOnce(ts: seq<string>, k: nat, m: nat)
    requires Closes(ts, k) && Closes(ts, m)
    ensures k == m
  {
  }

  // The list opened by the first token.
  lemma OpenedList(ts: seq<string>, j: nat)
    requires ts != [] && ts[0] == "(" && 0 < j <= |ts|
    ensures Depth(ts[..j]) == 1 + Depth(ts[1..][..j - 1])
  {
    DepthOne(ts);
    DepthFrom(ts, 1, j);
  }

  // No start of the tokens closes the list.
  predicate Unclosed(ts: seq<string>) {
    forall j :: 0 <= j <= |ts| ==> Depth(ts[..j]) >= 0
  }

  lemma ClosesOpened(ts: seq<string>, k: nat)
    requires ts != [] && ts[0] == "(" && ClosesList(ts[1..], k)
    ensures Closes(ts, k + 1)
  {
    forall j | 0 < j <= k + 1 ensures Depth(ts[..j]) == 1 + Depth(ts[1..][..j - 1]) { OpenedList(ts, j); }
  }

  lemma UnclosedOpened(ts: seq<string>)
    requires ts != [] && ts[0] == "(" && Unclosed(ts[1..])
    ensures forall j :: 0 < j <= |ts| ==> Depth(ts[..j]) > 0
  {
    forall j | 0 < j <= |ts| ensures Depth(ts[..j]) > 0 { OpenedList(ts, j); }
  }

  // An item, then the rest of its list.
  lemma ClosesAfterItem(ts: seq<string>, k: nat, m: nat)
    requires Closes(ts, k) && ClosesList(ts[k..], m)
    ensures ClosesList(ts, k + m)
  {
    assert ts[..0] == [];
    forall j | k <= j <= k + m ensures Depth(ts[..j]) == Depth(ts[k..][..j - k]) { DepthFrom(ts, k, j); }
  }

  lemma UnclosedAfterItem(ts: seq<string>, k: nat)
    requires Closes(ts, k) && Unclosed(ts[k..])
    ensures Unclosed(ts)
  {
    assert ts[..0] == [];
    forall j | 0 <= j <= |ts| ensures Depth(ts[..j]) >= 0 {
      if j >= k { DepthFrom(ts, k, j); }
    }
  }

  lemma {:induction false} ReadCounts<A>(ts: seq<string>, atom: string -> A)
    ensures var (r, rest) := Read(ts, atom); var k := |ts| - |rest|;
      match r
      case UnexpectedEof => ts == [] && rest == []
      case UnexpectedClose => ts != [] && ts[0] == ")" && rest == ts[1..]
      case IndexError => rest == [] && ts != [] && forall j :: 0 < j <= |ts| ==> Depth(ts[..j]) > 0
      case Ok(_) => rest == ts[k..] && Closes(ts, k)
    decreases |ts|, 0
  {
    hide Depth;
    if ts != [] {
      DepthOne(ts);
      if ts[0] == "(" {
        var (items, rest) := ReadItems(ts[1..], atom);
        ReadItemsCounts(ts[1..], atom);
        if items.Ok? { ClosesOpened(ts, |ts| - 1 - |rest|); } else { UnclosedOpened(ts); }
      }
    }
  }

  lemma {:induction false} ReadItemsCounts<A>(ts: seq<string>, atom: string -> A)
    ensures var (r, rest) := ReadItems(ts, atom); var k := |ts| - |rest|;
      (r.Ok? && rest == ts[k..] && ClosesList(ts, k)) || (r.IndexError? && rest == [] && Unclosed(ts))
    decreases |ts|, 1
  {
    hide Depth;
    if ts != [] {
      DepthOne(ts);
      if ts[0] != ")" {
        var (item, rest) := Read(ts, atom);
        ReadCounts(ts, atom);
        if item.Ok? {
          var (items, rest') := ReadItems(rest, atom);
          ReadItemsCounts(rest, atom);
          var k := |ts| - |rest|;
          if items.Ok? { ClosesAfterItem(ts, k, |rest| - |rest'|); } else { UnclosedAfterItem(ts, k); }
        } else {
          Started(ts);
        }
      }
    } else {
      NoDepth();
    }
  }

  lemma NoDepth()
    ensures Unclosed([])
  {
  }

  lemma Started(ts: seq<string>)
    requires forall j :: 0 < j <= |ts| ==> Depth(ts[..j]) > 0
    ensures Unclosed(ts)
  {
    assert ts[..0] == [];
  }

  // The reader succeeds exactly when the tokens start with a balanced expression, and pops
  // exactly that. It fails with a SyntaxError exactly on no tokens or a leading closing
  // parenthesis, and otherwise with an IndexError.
  lemma ReadsIffBalanced<A>(ts: seq<string>, atom: string -> A)
    ensures Read(ts, atom).0.Ok? <==> exists k: nat :: Closes(ts, k)
    ensures forall k: nat :: Closes(ts, k) ==> Read(ts, atom).1 == ts[k..]
    ensures Read(ts, atom).0.UnexpectedEof? <==> ts == []
    ensures Read(ts, atom).0.UnexpectedClose? <==> ts != [] && ts[0] == ")"
    ensures Read(ts, atom).0.IndexError? <==> ts != [] && ts[0] != ")" && !exists k: nat :: Closes(ts, k)
  {
    hide Depth, Read;
    ReadCounts(ts, atom);
    if ts != [] { DepthOne(ts); }
    var (r, rest) := Read(ts, atom);
    if r.Ok? {
      forall k: nat | Closes(ts, k) ensures rest == ts[k..] { ClosesOnce(ts, k, |ts| - |rest|); }
    }
  }

  // Parsing succeeds exactly when the tokens of the text start with a balanced expression; what
  // follows it is not looked at.
  lemma ParsesIff<A>(s: string, atom: string -> A)
    ensures Parse(s, atom).Ok? <==> exists k: nat :: Closes(Lex(s), k)
    ensures Parse(s, atom).UnexpectedEof? <==> Lex(s) == []
    ensures Parse(s, atom).UnexpectedClose? <==> Lex(s) != [] && Lex(s)[0] == ")"
  {
    hide Closes, Read, Tokenize, Lex;
    TokenizeIsLex(s);
    ReadsIffBalanced(Lex(s), atom);
  }

  // So text behind a printed expression is ignored, balanced or not.
  lemma RestIgnored<A>(e: Expr<string>, rest: string, atom: string -> A)
    requires WellFormed(e) && (rest == "" || rest[0] == ' ' || rest[0] == '(' || rest[0] == ')')
    ensures Parse(Printed(e) + rest, atom) == Ok(Converted(e, atom))
  {
    LexPrinted(e, rest);
    TokenizeIsLex(Printed(e) + rest);
    ReadTokens(e, Lex(rest), atom);
  }

  function Concat(ts: seq<string>): string {
    if ts == [] then "" else ts[0] + Concat(ts[1..])
  }

  // Tab to carriage return, the four separators, space, and the white space that Unicode adds.
  predicate White(c: char) {
    || c in "\t\n\U{0B}\U{0C}\r\U{1C}\U{1D}\U{1E}\U{1F} \U{85}\U{A0}\U{1680}"
    || '\U{2000}' <= c <= '\U{200A}'
    || c in "\U{2028}\U{2029}\U{202F}\U{205F}\U{3000}"
  }

  function WithoutWhite(s: string): string {
    if s == "" then "" else (if White(s[0]) then "" else [s[0]]) + WithoutWhite(s[1..])
  }

  lemma WhiteIsSpace(c: char)
    ensures White(c) <==> Space(c)
  {
  }

  lemma {:induction false} PlainKept(w: string, rest: string)
    requires forall c <- w :: Plain(c)
    ensures WithoutWhite(w + rest) == w + WithoutWhite(rest)
  {
    hide White, Space;
    if w == "" {
      assert w + rest == rest;
    } else {
      assert (w + rest)[1..] == w[1..] + rest;
      assert w[0] in w;
      WhiteIsSpace(w[0]);
      PlainKept(w[1..], rest);
    }
  }

  // The tokens of a text, one behind the other, are the text without its white space; a parenthesis
  // is a token by itself.
  lemma {:induction false} TokensKeepText(s: string)
    ensures Concat(Tokenize(s)) == WithoutWhite(s)
    ensures forall t <- Tokenize(s) :: t == "(" || t == ")" || (t != "" && '(' !in t && ')' !in t)
    decreases |s|
  {
    hide White, Space, Tokenize;
    TokenizeIsLex(s);
    if s != "" {
      WhiteIsSpace(s[0]);
      if Space(s[0]) || Paren(s[0]) {
        SpacesAreNoParens(s[0]);
        TokenizeIsLex(s[1..]);
        TokensKeepText(s[1..]);
      } else {
        var w := Run(s);
        var rest := s[|w|..];
        assert s == w + rest;
        PlainKept(w, rest);
        TokenizeIsLex(rest);
        TokensKeepText(rest);
      }
    }
  }

  lemma SpacesAreNoParens(c: char)
    ensures !(Space(c) && Paren(c))
  {
  }

  // What the reader returns is the expression whose tokens it popped.
  lemma {:induction false} ReadsBack<A>(ts: seq<string>, atom: string -> A) returns (e: Expr<string>)
    requires Read(ts, atom).0.Ok?
    ensures Tokens(e) + Read(ts, atom).1 == ts && Converted(e, atom) == Read(ts, atom).0.value
    decreases |ts|, 0
  {
    if ts[0] == "(" {
      var items := ItemsReadBack(ts[1..], atom);
      e := Stmt(items);
      var rest := Read(ts, atom).1;
      assert ts == ["("] + ts[1..];
      assert Tokens(e) + rest == ["("] + (TokensOf(items) + ([")"] + rest));
    } else {
      e := Atom(ts[0]);
    }
  }

  lemma {:induction false} ItemsReadBack<A>(ts: seq<string>, atom: string -> A) returns (es: seq<Expr<string>>)
    requires ReadItems(ts, atom).0.Ok?
    ensures TokensOf(es) + ([")"] + ReadItems(ts, atom).1) == ts
      && AllConverted(es, atom) == ReadItems(ts, atom).0.value
    decreases |ts|, 1
  {
    if ts[0] == ")" {
      es := [];
    } else {
      var rest := Read(ts, atom).1;
      var e := ReadsBack(ts, atom);
      var more := ItemsReadBack(rest, atom);
      es := [e] + more;
      assert es[1..] == more;
      assert TokensOf(es) == Tokens(e) + TokensOf(more);
    }
  }

  // ---------- the code ----------

  // The list of tokens the recursive calls share.
  class TokenList {
    var list: seq<string>

    constructor (tokens: seq<string>)
      ensures list == tokens
    {
      list := tokens;
    }

    method PopFirst() returns (t: string)
      requires list != []
      modifies this
      ensures t == old(list[0]) && list == old(list[1..])
    {
      t := list[0];
      list := list[1..];
    }
  }

  method ReadFromTokens<A>(tokens: TokenList, atom: string -> A) returns (r: Result<Expr<A>>)
    modifies tokens
    ensures (r, tokens.list) == Read(old(tokens.list), atom)
    decreases |tokens.list|
  {
    if |tokens.list| == 0 { return UnexpectedEof; }
    var token := tokens.PopFirst();
    if token == "(" {
      ghost var start := tokens.list;
      var stmt := [];
      AfterNone(ReadItems(start, atom));
      while tokens.list != [] && tokens.list[0] != ")"
        invariant |tokens.list| <= |start|
        invariant ReadItems(start, atom) == After(stmt, ReadItems(tokens.list, atom))
        decreases |tokens.list|
      {
        var item := ReadFromTokens(tokens, atom);
        match item {
          case Ok(v) =>
            AfterMore(stmt, v, ReadItems(tokens.list, atom));
            stmt := stmt + [v];
          case UnexpectedEof => return UnexpectedEof;
          case UnexpectedClose => return UnexpectedClose;
          case IndexError => return IndexError;
        }
      }
      if tokens.list == [] { return IndexError; }
      assert stmt + [] == stmt;
      var _ := tokens.PopFirst();
      return Ok(Stmt(stmt));
    } else if token == ")" {
      return UnexpectedClose;
    } else {
      return Ok(Atom(atom(token)));
    }
  }

  // The items read so far, before those still to come.
  ghost function After<A>(stmt: seq<Expr<A>>, more: Items<A>): Items<A> {
    (match more.0
     case Ok(vs) => Ok(stmt + vs)
     case UnexpectedEof => UnexpectedEof
     case UnexpectedClose => UnexpectedClose
     case IndexError => IndexError, more.1)
  }

  lemma AfterNone<A>(more: Items<A>)
    ensures After([], more) == more
  {
    if more.0.Ok? { assert [] + more.0.value == more.0.value; }
  }

  lemma AfterMore<A>(stmt: seq<Expr<A>>, v: Expr<A>, more: Items<A>)
    ensures After(stmt, (Prepend(v, more.0), more.1)) == After(stmt + [v], more)
  {
    if more.0.Ok? { assert stmt + ([v] + more.0.value) == stmt + [v] + more.0.value; }
  }

  method ParseText<A>(s: string, atom: string -> A) returns (r: Result<Expr<A>>)
    ensures r == Parse(s, atom)
  {
    var tokens := new TokenList(Tokenize(s));
    r := ReadFromTokens(tokens, atom);
  }
}
