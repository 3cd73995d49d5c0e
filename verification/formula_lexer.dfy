/**
  The formula tokeniser: its tokens as a function of the remaining text, the
  Lexer object that steps a position, and the quoting of channel names.
 */
module FormulaLexer {

  /** What the character tables say: isSpace, isLetter, isDigit, isLetterOrNumber. */
  datatype Chars = Chars(space: char -> bool, letter: char -> bool, digit: char -> bool, alnum: char -> bool)
  {
    ghost predicate Sound() {
      && (forall c :: letter(c) ==> alnum(c))
      && (forall c :: digit(c) ==> alnum(c))
      && (forall c :: alnum(c) ==> !space(c))
      && (forall c :: alnum(c) || space(c) ==> !Mark(c))
      && space(' ') && letter('e') && letter('E')
    }

    predicate Name(c: char) { alnum(c) || c == '_' || c == '.' }
  }

  predicate Mark(c: char) {
    || c == '[' || c == ']' || c == '_' || c == '.' || c == '+' || c == '-'
    || c == '*' || c == '/' || c == '(' || c == ')' || c == ',' || c == '='
  }

  datatype Token =
    | End
    | Ident(name: string, quoted: bool)
    | Number(text: string)
    | Plus | Minus | Star | Slash | LParen | RParen | Comma | Assign
    | Bad(why: string)

  /** A token with the place it was found: it covers start..stop. */
  datatype Lexeme = Lexeme(token: Token, start: nat, stop: nat)

  // ---- Runs of characters ----------------------------------------------------

  /** How many blanks the text starts with. */
  function Spaces(cs: Chars, s: string): (n: nat)
    ensures n <= |s| && forall i | 0 <= i < n :: cs.space(s[i])
    ensures n < |s| ==> !cs.space(s[n])
  {
    if s != "" && cs.space(s[0]) then 1 + Spaces(cs, s[1..]) else 0
  }

  /** How many name characters the text starts with. */
  function NameRun(cs: Chars, s: string): (n: nat)
    ensures n <= |s| && forall i | 0 <= i < n :: cs.Name(s[i])
    ensures n < |s| ==> !cs.Name(s[n])
  {
    if s != "" && cs.Name(s[0]) then 1 + NameRun(cs, s[1..]) else 0
  }

  /** Whether position i continues a number: a sign only right behind an exponent mark. */
  predicate InNumber(cs: Chars, s: string, i: nat)
    requires i < |s|
  {
    || cs.digit(s[i]) || s[i] == '.' || s[i] == 'e' || s[i] == 'E'
    || (i > 0 && (s[i] == '+' || s[i] == '-') && (s[i - 1] == 'e' || s[i - 1] == 'E'))
  }

  function NumberEnd(cs: Chars, s: string, i: nat): (n: nat)
    requires i <= |s|
    ensures i <= n <= |s| && forall j | i <= j < n :: InNumber(cs, s, j)
    ensures n < |s| ==> !InNumber(cs, s, n)
    decreases |s| - i
  {
    if i < |s| && InNumber(cs, s, i) then NumberEnd(cs, s, i + 1) else i
  }

  // ---- Brackets --------------------------------------------------------------

  function Step(c: char): int { if c == '[' then 1 else if c == ']' then -1 else 0 }

  /** Opening minus closing brackets. */
  function Net(s: string): int {
    if s == "" then 0 else Net(s[..|s| - 1]) + Step(s[|s| - 1])
  }

  ghost predicate Balanced(s: string) {
    Net(s) == 0 && forall k | 0 <= k <= |s| :: Net(s[..k]) >= 0
  }

  /** Where the bracket open at the given depth closes, or |s|. */
  function Close(s: string, depth: nat): (k: nat)
    requires depth > 0
    ensures k <= |s|
  {
    if s == "" then 0
    else if depth + Step(s[0]) == 0 then 0
    else 1 + Close(s[1..], depth + Step(s[0]))
  }

  lemma {:induction false} NetFirst(s: string)
    requires s != ""
    ensures Net(s) == Step(s[0]) + Net(s[1..])
  {
    if |s| > 1 {
      NetFirst(s[..|s| - 1]);
      assert s[..|s| - 1][1..] == s[1..][..|s| - 2];
    }
  }

  lemma NetPrefix(s: string, k: nat)
    requires k < |s|
    ensures Net(s[..k + 1]) == Step(s[0]) + Net(s[1..][..k])
    ensures Net(s[..k + 1]) == Net(s[..k]) + Step(s[k])
  {
    NetFirst(s[..k + 1]);
    assert s[..k + 1][1..] == s[1..][..k];
    assert s[..k + 1][..k] == s[..k];
  }

  /** k is the first place where the depth falls to zero. */
  ghost predicate Closes(s: string, depth: nat, k: nat) {
    && k < |s| && s[k] == ']' && depth + Net(s[..k]) == 1
    && forall j | 0 <= j <= k :: depth + Net(s[..j]) >= 1
  }

  lemma {:induction false} CloseFindsMatch(s: string, depth: nat)
    requires depth > 0 && Close(s, depth) < |s|
    ensures Closes(s, depth, Close(s, depth))
  {
    var next := depth + Step(s[0]);
    if next > 0 {
      CloseFindsMatch(s[1..], next);
      var k := Close(s[1..], next);
      forall j | 0 <= j <= k + 1
        ensures depth + Net(s[..j]) >= 1
      {
        if j > 0 { NetPrefix(s, j - 1); }
      }
      NetPrefix(s, k);
    }
  }

  lemma {:induction false} MatchIsClose(s: string, depth: nat, k: nat)
    requires depth > 0 && Closes(s, depth, k)
    ensures Close(s, depth) == k
  {
    if k > 0 {
      NetPrefix(s, 0);
      forall j | 0 <= j <= k - 1
        ensures depth + Step(s[0]) + Net(s[1..][..j]) >= 1
      {
        NetPrefix(s, j);
        assert depth + Net(s[..j + 1]) >= 1;
      }
      NetPrefix(s, k - 1);
      assert s[..1][..0] == "";
      MatchIsClose(s[1..], depth + Step(s[0]), k - 1);
    }
  }

  // ---- Trimming --------------------------------------------------------------

  predicate IsTrimmed(cs: Chars, s: string) {
    s != "" ==> !cs.space(s[0]) && !cs.space(s[|s| - 1])
  }

  function Trim(cs: Chars, s: string): (r: string)
    ensures IsTrimmed(cs, r) && |r| <= |s|
    ensures IsTrimmed(cs, s) ==> r == s
  {
    if s == "" then s
    else if cs.space(s[0]) then Trim(cs, s[1..])
    else if cs.space(s[|s| - 1]) then Trim(cs, s[..|s| - 1])
    else s
  }

  lemma {:induction false} TrimKeepsBalance(cs: Chars, s: string)
    requires cs.Sound() && Balanced(s)
    ensures Balanced(Trim(cs, s))
  {
    if s == "" {
    } else if cs.space(s[0]) {
      NetFirst(s);
      forall k | 0 <= k <= |s[1..]|
        ensures Net(s[1..][..k]) >= 0
      {
        NetPrefix(s, k);
        assert Net(s[..k + 1]) >= 0;
      }
      TrimKeepsBalance(cs, s[1..]);
    } else if cs.space(s[|s| - 1]) {
      var head := s[..|s| - 1];
      forall k | 0 <= k <= |head|
        ensures Net(head[..k]) >= 0
      {
        assert head[..k] == s[..k];
      }
      TrimKeepsBalance(cs, head);
    }
  }

  // ---- Tokens ----------------------------------------------------------------

  function Symbol(c: char): Token {
    match c
    case '+' => Plus
    case '-' => Minus
    case '*' => Star
    case '/' => Slash
    case '(' => LParen
    case ')' => RParen
    case ',' => Comma
    case '=' => Assign
    case _ => Bad([c])
  }

  /** The token a non-blank text starts with, and its length. */
  function First(cs: Chars, s: string): (r: (Token, nat))
    requires s != ""
    ensures r.0 != End && (cs.Sound() ==> 0 < r.1) && r.1 <= |s|
  {
    if s[0] == '[' then
      var k := Close(s[1..], 1);
      if k == |s| - 1 then (Bad("unterminated '['"), |s|)
      else
        var name := Trim(cs, s[1..][..k]);
        (if name == "" then Bad("empty '[]'") else Ident(name, true), k + 2)
    else if cs.letter(s[0]) || s[0] == '_' then
      (Ident(s[..NameRun(cs, s)], false), NameRun(cs, s))
    else if cs.digit(s[0]) || s[0] == '.' then
      (Number(s[..NumberEnd(cs, s, 0)]), NumberEnd(cs, s, 0))
    else
      (Symbol(s[0]), 1)
  }

  function Lex(cs: Chars, s: string): (x: Lexeme)
    ensures x.start <= x.stop <= |s|
    ensures x.token == End <==> x.start == |s|
    ensures x.token != End && cs.Sound() ==> x.start < x.stop
  {
    var n := Spaces(cs, s);
    if n == |s| then Lexeme(End, n, n)
    else
      var (token, length) := First(cs, s[n..]);
      Lexeme(token, n, n + length)
  }

  /** All tokens of a text, up to its end. */
  function Tokens(cs: Chars, s: string): seq<Token>
    requires cs.Sound()
    decreases |s|
  {
    var x := Lex(cs, s);
    if x.token == End then [] else [x.token] + Tokens(cs, s[x.stop..])
  }

  /** The tokeniser object: a text and a position in it. */
  class Lexer {
    const cs: Chars
    const src: string
    var p: nat

    ghost predicate Valid()
      reads this
    {
      cs.Sound() && p <= |src|
    }

    constructor (cs: Chars, src: string)
      requires cs.Sound()
      ensures Valid() && this.cs == cs && this.src == src && p == 0
    {
      this.cs, this.src, this.p := cs, src, 0;
    }

    method SkipSpaces()
      requires Valid()
      modifies this
      ensures Valid() && p == old(p) + Spaces(cs, src[old(p)..])
    {
      while p < |src| && cs.space(src[p])
        invariant p <= |src|
        invariant old(p) + Spaces(cs, src[old(p)..]) == p + Spaces(cs, src[p..])
        decreases |src| - p
      {
        assert src[p..][1..] == src[p + 1..];
        p := p + 1;
      }
    }

    /** The next token and where it starts; the position moves behind it. */
    method Next() returns (token: Token, pos: nat)
      requires Valid()
      modifies this
      ensures Valid() && old(p) <= pos <= p
      ensures Lexeme(token, pos - old(p), p - old(p)) == Lex(cs, src[old(p)..])
    {
      ghost var rest := src[p..];
      SkipSpaces();
      pos := p;
      if p >= |src| { return End, pos; }
      assert rest[Spaces(cs, rest)..] == src[pos..];
      var c := src[p];
      if c == '[' {
        token := Bracketed();
      } else if cs.letter(c) || c == '_' {
        token := Word();
      } else if cs.digit(c) || c == '.' {
        token := Numeral();
      } else {
        p := p + 1;
        token := Symbol(c);
      }
    }

    method Word() returns (token: Token)
      requires Valid() && p < |src| && src[p] != '[' && (cs.letter(src[p]) || src[p] == '_')
      modifies this
      ensures Valid() && p > old(p)
      ensures (token, p - old(p)) == First(cs, src[old(p)..])
    {
      var begin := p;
      while p < |src| && cs.Name(src[p])
        invariant begin <= p <= |src|
        invariant NameRun(cs, src[begin..]) == p - begin + NameRun(cs, src[p..])
        decreases |src| - p
      {
        assert src[p..][1..] == src[p + 1..];
        p := p + 1;
      }
      token := Ident(src[begin..p], false);
      assert src[begin..][..p - begin] == src[begin..p];
    }

    method Numeral() returns (token: Token)
      requires Valid() && p < |src| && src[p] != '[' && !cs.letter(src[p]) && src[p] != '_'
      requires cs.digit(src[p]) || src[p] == '.'
      modifies this
      ensures Valid() && p > old(p)
      ensures (token, p - old(p)) == First(cs, src[old(p)..])
    {
      var begin := p;
      ghost var tail := src[begin..];
      while p < |src| && (cs.digit(src[p]) || src[p] == '.' || src[p] == 'e' || src[p] == 'E'
                          || (p > begin && (src[p] == '+' || src[p] == '-')
                              && (src[p - 1] == 'e' || src[p - 1] == 'E')))
        invariant begin <= p <= |src|
        invariant NumberEnd(cs, tail, 0) == NumberEnd(cs, tail, p - begin)
        decreases |src| - p
      {
        p := p + 1;
      }
      token := Number(src[begin..p]);
      assert src[begin..][..p - begin] == src[begin..p];
    }

    /** From an opening bracket to its partner; brackets inside nest. */
    method Bracketed() returns (token: Token)
      requires Valid() && p < |src| && src[p] == '['
      modifies this
      ensures Valid() && p > old(p)
      ensures (token, p - old(p)) == First(cs, src[old(p)..])
    {
      hide Trim, Close;
      p := p + 1;
      var nameStart := p;
      ghost var inner := src[nameStart..];
      assert src[old(p)..][1..] == inner;
      var closed := SkipToPartner();
      if !closed { return Bad("unterminated '['"); }
      var name := Trim(cs, src[nameStart..p]);
      assert inner[..p - nameStart] == src[nameStart..p];
      p := p + 1;
      return if name == "" then Bad("empty '[]'") else Ident(name, true);
    }

    method SkipToPartner() returns (closed: bool)
      requires Valid()
      modifies this
      ensures Valid() && p == old(p) + Close(src[old(p)..], 1)
      ensures closed <==> p < |src|
    {
      var depth := 1;
      while p < |src| && depth > 0
        invariant old(p) <= p <= |src| && depth >= 0
        invariant depth > 0 ==> Close(src[old(p)..], 1) == p - old(p) + Close(src[p..], depth)
        invariant depth == 0 ==> p < |src| && Close(src[old(p)..], 1) == p - old(p)
        decreases |src| - p, depth
      {
        if src[p] == '[' { depth := depth + 1; }
        else if src[p] == ']' { depth := depth - 1; }
        assert src[p..][1..] == src[p + 1..];
        if depth > 0 { p := p + 1; }
      }
      return depth == 0;
    }
  }
}
