/** What section 5.4.1 of the reference manual says patterns mean, independently of how the
    matcher reads them: a pattern is a list of pieces, a piece has a text, a set of characters
    is a set.  The matcher, given the text of a pattern, finds what the manual describes. */
module PatternManual {
  import opened Common
  import opened Pattern
  import opened PatternBest

  // ----- character classes

  const LOWER: string := "abcdefghijklmnopqrstuvwxyz"
  const UPPER: string := "ABCDEFGHIJKLMNOPQRSTUVWXYZ"
  const DIGITS: string := "0123456789"
  const HEXDIGITS: string := "0123456789abcdefABCDEF"
  const SIGNS: string := "!\"#$%&'()*+,-./"
  const MORE_SIGNS: string := ":;<=>?@[\\]^_`{|}~"
  const SPACES: string := " \t\n\U{000B}\U{000C}\r"

  predicate Control(c: char) {
    c < ' ' || c == '\U{007F}'
  }

  /** The class of a lower case letter. */
  predicate OfLetter(c: char, letter: char) {
    match letter
    case 'a' => c in LOWER || c in UPPER
    case 'c' => Control(c)
    case 'd' => c in DIGITS
    case 'l' => c in LOWER
    case 'p' => c in SIGNS || c in MORE_SIGNS
    case 's' => c in SPACES
    case 'u' => c in UPPER
    case 'w' => c in LOWER || c in UPPER || c in DIGITS
    case 'x' => c in HEXDIGITS
    case _ => c == '\0'
  }

  const CLASSES: string := "acdlpsuwxz"
  const COMPLEMENTS: string := "ACDLPSUWXZ"

  predicate OfClass(c: char, letter: char) {
    if letter in CLASSES then OfLetter(c, letter)
    else exists k :: 0 <= k < |COMPLEMENTS| && letter == COMPLEMENTS[k] && !OfLetter(c, CLASSES[k])
  }

  lemma LowerTable(c: char)
    ensures c in LOWER <==> IsLower(c)
  {
    if IsLower(c) { assert LOWER[c as int - 'a' as int] == c; }
  }

  lemma UpperTable(c: char)
    ensures c in UPPER <==> IsUpper(c)
  {
    if IsUpper(c) { assert UPPER[c as int - 'A' as int] == c; }
  }

  lemma DigitTable(c: char)
    ensures c in DIGITS <==> IsDigit(c)
  {
    if IsDigit(c) { assert DIGITS[c as int - '0' as int] == c; }
  }

  lemma HexTable(c: char)
    ensures c in HEXDIGITS <==> IsXDigit(c)
  {
    if IsDigit(c) { assert HEXDIGITS[c as int - '0' as int] == c; }
    if 'a' <= c <= 'f' { assert HEXDIGITS[c as int - 'a' as int + 10] == c; }
    if 'A' <= c <= 'F' { assert HEXDIGITS[c as int - 'A' as int + 16] == c; }
  }

  lemma SignTable(c: char)
    ensures c in SIGNS <==> 33 <= c as int <= 47
  {
    if 33 <= c as int <= 47 { assert SIGNS[c as int - 33] == c; }
  }

  lemma MoreSignTable(c: char)
    ensures c in MORE_SIGNS <==> 58 <= c as int <= 64 || 91 <= c as int <= 96 || 123 <= c as int <= 126
  {
    if 58 <= c as int <= 64 { assert MORE_SIGNS[c as int - 58] == c; }
    if 91 <= c as int <= 96 { assert MORE_SIGNS[c as int - 91 + 7] == c; }
    if 123 <= c as int <= 126 { assert MORE_SIGNS[c as int - 123 + 13] == c; }
  }

  lemma SpaceTable(c: char)
    ensures c in SPACES <==> IsSpace(c)
  {
  }

  lemma PunctuationTable(c: char)
    ensures c in SIGNS || c in MORE_SIGNS <==> IsPunct(c)
  {
    hide SIGNS, MORE_SIGNS;
    SignTable(c);
    MoreSignTable(c);
  }

  lemma LowerLetter(letter: char)
    requires letter in CLASSES
    ensures IsLower(letter) && Lower(letter) == letter
  {
  }

  lemma LetterIs(c: char, letter: char)
    requires letter in CLASSES
    ensures MatchClass(c, letter) <==> OfLetter(c, letter)
  {
    hide IsLower, IsUpper, IsDigit, IsXDigit, IsPunct, IsSpace, IsCntrl, Lower;
    hide LOWER, UPPER, DIGITS, HEXDIGITS, SIGNS, MORE_SIGNS, SPACES;
    LowerLetter(letter);
    LowerTable(c);
    UpperTable(c);
    DigitTable(c);
    HexTable(c);
    PunctuationTable(c);
    SpaceTable(c);
    assert Control(c) <==> IsCntrl(c) by { ControlIs(c); }
  }

  lemma ControlIs(c: char)
    ensures Control(c) <==> IsCntrl(c)
  {
  }

  lemma SameNumber()
    ensures |CLASSES| == |COMPLEMENTS|
  {
  }

  lemma ComplementAt(k: nat, c: char)
    requires k < |COMPLEMENTS|
    ensures CLASSES[k] in CLASSES && COMPLEMENTS[k] !in CLASSES
    ensures MatchClass(c, COMPLEMENTS[k]) <==> !MatchClass(c, CLASSES[k])
  {
    hide IsDigit, IsXDigit, IsPunct, IsSpace, IsCntrl;
  }

  lemma ClassIs(c: char, letter: char)
    requires letter in CLASSES || letter in COMPLEMENTS
    ensures MatchClass(c, letter) <==> OfClass(c, letter)
  {
    hide MatchClass, OfLetter, CLASSES, COMPLEMENTS;
    assert |CLASSES| == |COMPLEMENTS| by { SameNumber(); }
    if letter in CLASSES {
      LetterIs(c, letter);
    } else {
      forall k: nat | k < |COMPLEMENTS| && letter == COMPLEMENTS[k]
        ensures MatchClass(c, letter) <==> !OfLetter(c, CLASSES[k])
      {
        ComplementAt(k, c);
        LetterIs(c, CLASSES[k]);
      }
    }
  }

  // ----- texts within a pattern

  /** The text w stands in p at i. */
  predicate Stands(p: string, i: nat, w: string) {
    i + |w| <= |p| && p[i..i + |w|] == w
  }

  lemma StandsAt(p: string, i: nat, w: string, k: nat)
    requires Stands(p, i, w) && k < |w|
    ensures At(p, i + k) == w[k]
  {
    assert p[i..i + |w|][k] == p[i + k];
  }

  lemma StandsParts(p: string, i: nat, w: string, w': string)
    requires Stands(p, i, w + w')
    ensures Stands(p, i, w) && Stands(p, i + |w|, w')
  {
    assert p[i..i + |w + w'|][..|w|] == p[i..i + |w|];
    assert p[i..i + |w + w'|][|w|..] == p[i + |w|..i + |w| + |w'|];
  }

  // ----- sets of characters

  datatype Element = Sign(c: char, escaped: bool) | Range(a: char, b: char) | AnyOf(letter: char)

  predicate Covers(e: Element, c: char) {
    match e
    case Sign(x, _) => c == x
    case Range(a, b) => a <= c <= b
    case AnyOf(letter) => OfClass(c, letter)
  }

  predicate ClassLetter(letter: char) {
    letter in CLASSES || letter in COMPLEMENTS
  }

  /** What may follow a '%' to stand for itself. */
  predicate Escapable(c: char) {
    c != NUL && c !in LOWER && c !in UPPER && c !in DIGITS
  }

  predicate PlainInSet(c: char) {
    c != NUL && c !in "]^-%"
  }

  predicate ValidElement(e: Element) {
    match e
    case Sign(c, escaped) => if escaped then Escapable(c) else PlainInSet(c)
    case Range(a, b) => PlainInSet(a) && PlainInSet(b)
    case AnyOf(letter) => ClassLetter(letter)
  }

  function ElementText(e: Element): string {
    match e
    case Sign(c, escaped) => if escaped then [ESC, c] else [c]
    case Range(a, b) => [a, '-', b]
    case AnyOf(letter) => [ESC, letter]
  }

  function ElementsText(es: seq<Element>): string {
    if es == [] then "" else ElementText(es[0]) + ElementsText(es[1..])
  }

  predicate ValidElements(es: seq<Element>) {
    forall k :: 0 <= k < |es| ==> ValidElement(es[k])
  }

  predicate SomeCovers(es: seq<Element>, c: char) {
    exists k :: 0 <= k < |es| && Covers(es[k], c)
  }

  lemma CoversFirst(es: seq<Element>, c: char)
    requires es != []
    ensures SomeCovers(es, c) <==> Covers(es[0], c) || SomeCovers(es[1..], c)
  {
    forall k | 0 <= k < |es[1..]| ensures es[1..][k] == es[k + 1] {}
    if SomeCovers(es, c) && !Covers(es[0], c) {
      var k :| 0 <= k < |es| && Covers(es[k], c);
      assert es[1..][k - 1] == es[k];
    }
  }

  /** The first character of what follows an element within its brackets. */
  lemma ElementStarts(e: Element)
    requires ValidElement(e)
    ensures ElementText(e) != [] && ElementText(e)[0] != NUL && ElementText(e)[0] !in "]^-"
  {
  }

  lemma FollowedBy(p: string, i: nat, es: seq<Element>)
    requires Stands(p, i, ElementsText(es) + "]") && ValidElements(es)
    ensures At(p, i) != NUL && At(p, i) !in "^-" && (At(p, i) == ']' <==> es == [])
  {
    StandsAt(p, i, ElementsText(es) + "]", 0);
    if es != [] { ElementStarts(es[0]); }
  }

  /** An element with what follows it. */
  lemma ElementStands(p: string, i: nat, es: seq<Element>)
    requires Stands(p, i, ElementsText(es) + "]") && ValidElements(es) && es != []
    ensures var w := ElementText(es[0]);
            && Stands(p, i + |w|, ElementsText(es[1..]) + "]") && ValidElements(es[1..])
            && (forall k: nat :: k < |w| ==> At(p, i + k) == w[k])
            && At(p, i + |w|) != NUL && At(p, i + |w|) !in "^-" && (At(p, i + |w|) == ']' <==> es[1..] == [])
  {
    hide Stands, ValidElement, ElementText;
    var w := ElementText(es[0]);
    assert ElementsText(es) + "]" == w + (ElementsText(es[1..]) + "]");
    StandsParts(p, i, w, ElementsText(es[1..]) + "]");
    forall k: nat | k < |w| ensures At(p, i + k) == w[k] { StandsAt(p, i, w, k); }
    FollowedBy(p, i + |w|, es[1..]);
  }

  /** The ']' that closes a set is the one after its elements. */
  lemma {:induction false} SetEndIs(p: string, i: nat, es: seq<Element>)
    requires Stands(p, i, ElementsText(es) + "]") && ValidElements(es) && es != []
    ensures SetEnd(p, i) == Some(i + |ElementsText(es)|)
    decreases |es|
  {
    hide Stands, CLASSES, COMPLEMENTS, LOWER, UPPER, DIGITS;
    ElementStands(p, i, es);
    var e, rest := es[0], es[1..];
    var w := ElementText(e);
    assert At(p, i) == w[0] && (|w| > 1 ==> At(p, i + 1) == w[1]) && (|w| > 2 ==> At(p, i + 2) == w[2]);
    ElementStarts(e);
    AfterElement(p, i, e);
    if rest != [] { SetEndIs(p, i + |w|, rest); }
  }

  lemma LettersNotNul(letter: char)
    requires ClassLetter(letter)
    ensures letter != NUL && letter != ']'
  {
  }

  /** Looking for the end of a set steps over an element. */
  lemma AfterElement(p: string, i: nat, e: Element)
    requires ValidElement(e) && forall k: nat :: k < |ElementText(e)| ==> At(p, i + k) == ElementText(e)[k]
    ensures var j := i + |ElementText(e)|; SetEnd(p, i) == if At(p, j) == ']' then Some(j) else SetEnd(p, j)
  {
    hide CLASSES, COMPLEMENTS, LOWER, UPPER, DIGITS;
    var w := ElementText(e);
    assert At(p, i) == w[0] && (|w| > 1 ==> At(p, i + 1) == w[1]) && (|w| > 2 ==> At(p, i + 2) == w[2]);
    match e
    case Sign(c, escaped) =>
    case Range(a, b) =>
      assert SetEnd(p, i) == SetEnd(p, i + 1) && SetEnd(p, i + 1) == SetEnd(p, i + 2);
    case AnyOf(letter) => LettersNotNul(letter);
  }

  /** A character is found in a set exactly if one of the elements covers it. */
  lemma {:induction false} InSomeIs(c: char, p: string, i: nat, es: seq<Element>)
    requires Stands(p, i, ElementsText(es) + "]") && ValidElements(es)
    ensures InSome(c, p, i, i + |ElementsText(es)|) <==> SomeCovers(es, c)
    decreases |es|
  {
    hide Stands, CLASSES, COMPLEMENTS, LOWER, UPPER, DIGITS, SomeCovers, MatchClass, OfClass;
    if es != [] {
      ElementStands(p, i, es);
      CoversFirst(es, c);
      InElementIs(c, p, i, es[0], i + |ElementsText(es)|);
      InSomeIs(c, p, i + |ElementText(es[0])|, es[1..]);
    } else {
      NoneCovers(c);
    }
  }

  lemma NoneCovers(c: char)
    ensures !SomeCovers([], c)
  {
  }

  lemma InElementIs(c: char, p: string, i: nat, e: Element, ec: nat)
    requires ValidElement(e) && i + |ElementText(e)| <= ec
    requires forall k: nat :: k < |ElementText(e)| ==> At(p, i + k) == ElementText(e)[k]
    requires At(p, i + |ElementText(e)|) != '-'
    ensures InElement(c, p, i, ec) <==> Covers(e, c)
    ensures ElementEnd(p, i, ec) == i + |ElementText(e)|
  {
    hide CLASSES, COMPLEMENTS, MatchClass, OfClass, LOWER, UPPER, DIGITS;
    var w := ElementText(e);
    assert At(p, i) == w[0] && (|w| > 1 ==> At(p, i + 1) == w[1]) && (|w| > 2 ==> At(p, i + 2) == w[2]);
    match e
    case Sign(x, escaped) => if escaped { EscapedIs(c, x); }
    case Range(a, b) =>
    case AnyOf(letter) => ClassIs(c, letter);
  }

  lemma EscapedIs(c: char, x: char)
    requires Escapable(x)
    ensures MatchClass(c, x) <==> c == x
  {
    hide LOWER, UPPER, DIGITS;
    LowerTable(x);
    UpperTable(x);
    DigitTable(x);
  }

  /** A set, as the manual lists them. */
  datatype Set =
    | Dot
    | Letter(c: char, escaped: bool)
    | Named(letter: char)
    | Bracket(complement: bool, es: seq<Element>)

  predicate Contains(x: Set, c: char) {
    match x
    case Dot => true
    case Letter(y, _) => c == y
    case Named(letter) => OfClass(c, letter)
    case Bracket(complement, es) => if complement then !SomeCovers(es, c) else SomeCovers(es, c)
  }

  const SPECIALS: string := "^$*+?.([%-)"

  predicate ValidSet(x: Set) {
    match x
    case Dot => true
    case Letter(c, escaped) => if escaped then Escapable(c) else c != NUL && c !in SPECIALS
    case Named(letter) => ClassLetter(letter)
    case Bracket(_, es) => es != [] && ValidElements(es)
  }

  function SetText(x: Set): string {
    match x
    case Dot => "."
    case Letter(c, escaped) => if escaped then [ESC, c] else [c]
    case Named(letter) => [ESC, letter]
    case Bracket(complement, es) => (if complement then "[^" else "[") + (ElementsText(es) + "]")
  }

  lemma BracketOpens(p: string, i: nat, complement: bool, es: seq<Element>)
    requires Stands(p, i, SetText(Bracket(complement, es))) && es != [] && ValidElements(es)
    ensures i < |p| && p[i] == '[' && (At(p, i + 1) == '^' <==> complement)
    ensures Stands(p, if complement then i + 2 else i + 1, ElementsText(es) + "]")
  {
    hide ElementsText;
    var open := if complement then "[^" else "[";
    StandsParts(p, i, open, ElementsText(es) + "]");
    StandsAt(p, i, open, 0);
    FollowedBy(p, i + |open|, es);
    if complement { StandsAt(p, i, open, 1); }
  }

  /** Brackets are read from the first to the last, and tell what they contain. */
  lemma BracketIs(p: string, i: nat, complement: bool, es: seq<Element>)
    requires Stands(p, i, SetText(Bracket(complement, es))) && es != [] && ValidElements(es)
    ensures var to := i + |SetText(Bracket(complement, es))|;
            && i < |p| && p[i] == '[' && ClassEnd(p, i) == Some(to)
            && forall c :: InSet(c, p, i, to - 1) <==> Contains(Bracket(complement, es), c)
  {
    hide SomeCovers, InSome, Stands, ElementsText, ValidElements, SetEnd;
    var first := if complement then i + 2 else i + 1;
    var to := i + |SetText(Bracket(complement, es))|;
    BracketOpens(p, i, complement, es);
    SetEndIs(p, first, es);
    forall c ensures InSet(c, p, i, to - 1) <==> Contains(Bracket(complement, es), c) {
      InSomeIs(c, p, first, es);
    }
  }

  lemma LetterSetIs(p: string, i: nat, c: char, escaped: bool)
    requires Stands(p, i, SetText(Letter(c, escaped))) && ValidSet(Letter(c, escaped))
    ensures i < |p| && ClassEnd(p, i) == Some(i + |SetText(Letter(c, escaped))|)
    ensures forall d :: SingleMatch(d, p, i, i + |SetText(Letter(c, escaped))|) <==> Contains(Letter(c, escaped), d)
  {
    hide LOWER, UPPER, DIGITS, InSet, MatchClass, SetEnd;
    var w := SetText(Letter(c, escaped));
    StandsAt(p, i, w, 0);
    if escaped {
      StandsAt(p, i, w, 1);
      forall d ensures MatchClass(d, c) <==> d == c { EscapedIs(d, c); }
    }
  }

  lemma NamedIs(p: string, i: nat, letter: char)
    requires Stands(p, i, SetText(Named(letter))) && ClassLetter(letter)
    ensures i < |p| && ClassEnd(p, i) == Some(i + 2)
    ensures forall d :: SingleMatch(d, p, i, i + 2) <==> Contains(Named(letter), d)
  {
    hide CLASSES, COMPLEMENTS, InSet, MatchClass, OfClass, SetEnd;
    StandsAt(p, i, SetText(Named(letter)), 0);
    StandsAt(p, i, SetText(Named(letter)), 1);
    LettersNotNul(letter);
    forall d ensures MatchClass(d, letter) <==> OfClass(d, letter) { ClassIs(d, letter); }
  }

  lemma DotIs(p: string, i: nat)
    requires Stands(p, i, SetText(Dot))
    ensures i < |p| && ClassEnd(p, i) == Some(i + 1)
    ensures forall c :: SingleMatch(c, p, i, i + 1) <==> Contains(Dot, c)
  {
    StandsAt(p, i, SetText(Dot), 0);
  }

  lemma SetIs(p: string, i: nat, x: Set)
    requires Stands(p, i, SetText(x)) && ValidSet(x)
    ensures i < |p| && ClassEnd(p, i) == Some(i + |SetText(x)|)
    ensures forall c :: SingleMatch(c, p, i, i + |SetText(x)|) <==> Contains(x, c)
  {
    hide Contains, SingleMatch, ClassEnd, Escapable, ElementsText, ValidElements, SPECIALS, Stands;
    match x
    case Dot => DotIs(p, i);
    case Letter(c, escaped) => LetterSetIs(p, i, c, escaped);
    case Named(letter) => NamedIs(p, i, letter);
    case Bracket(complement, es) =>
      BracketIs(p, i, complement, es);
      MatchesSet(p, i);
  }

  lemma MatchesSet(p: string, i: nat)
    requires i < |p| && p[i] == '['
    ensures forall c, to {:trigger SingleMatch(c, p, i, to)} :: SingleMatch(c, p, i, to) == InSet(c, p, i, to - 1)
  {
  }

  // ----- pieces

  datatype Piece =
    | Chars(set_: Set, suffix: string)
    | OpenCapture
    | CloseCapture
    | PositionCapture
    | Between(x: char, y: char)
    | Border(complement: bool, es: seq<Element>)
    | Again(k: nat)
    | AtEnd

  predicate ValidPiece(x: Piece) {
    match x
    case Chars(set_, suffix) => ValidSet(set_) && suffix in ["", "*", "+", "-", "?"]
    case Between(b, e) => b != NUL && e != NUL && b != e
    case Border(_, es) => es != [] && ValidElements(es)
    case Again(k) => 1 <= k <= 9
    case _ => true
  }

  function PieceText(x: Piece): string {
    match x
    case Chars(set_, suffix) => SetText(set_) + suffix
    case OpenCapture => "("
    case CloseCapture => ")"
    case PositionCapture => "()"
    case Between(b, e) => [ESC, 'b', b, e]
    case Border(complement, es) => "%f" + SetText(Bracket(complement, es))
    case Again(k) => [ESC, if k < 10 then DIGITS[k] else '0']
    case AtEnd => "$"
  }

  function Text(pieces: seq<Piece>): string {
    if pieces == [] then "" else PieceText(pieces[0]) + Text(pieces[1..])
  }

  /** "()" is a position capture and '$' is only special at the end. */
  predicate ValidPieces(pieces: seq<Piece>) {
    && (forall k :: 0 <= k < |pieces| ==> ValidPiece(pieces[k]))
    && (forall k :: 0 <= k < |pieces| && pieces[k].AtEnd? ==> k == |pieces| - 1)
    && (forall k :: 0 <= k < |pieces| - 1 && pieces[k].OpenCapture? ==> !pieces[k + 1].CloseCapture?)
  }

  // ----- what a piece matches

  predicate Times(suffix: string, n: nat) {
    if suffix == "*" || suffix == "-" then n >= 0
    else if suffix == "+" then n >= 1
    else if suffix == "?" then n == 0 || n == 1
    else n == 1
  }

  /** As many x as y. */
  predicate Even(text: string, x: char, y: char) {
    multiset(text)[x] == multiset(text)[y]
  }

  /** The subject has the same character i places after a as i places after b. */
  predicate SameAt(src: string, a: nat, b: nat, i: nat) {
    At(src, a + i) == At(src, b + i)
  }

  /** Capture l is the last open one. */
  predicate LastOpen(caps: seq<Capture>, l: nat) {
    l < |caps| && caps[l].len == CAP_UNFINISHED && forall j :: l < j < |caps| ==> caps[j].len != CAP_UNFINISHED
  }

  /** The n-th choice at a piece takes the match from s to t. */
  ghost predicate Moves(src: string, x: Piece, n: nat, s: nat, caps: seq<Capture>, t: nat, caps': seq<Capture>) {
    match x
    case Chars(set_, suffix) =>
      && Times(suffix, n) && t == s + n <= |src| && caps' == caps
      && forall k :: s <= k < t ==> Contains(set_, src[k])
    case OpenCapture => n == 0 && t == s && caps' == caps + [Capture(s, CAP_UNFINISHED)]
    case PositionCapture => n == 0 && t == s && caps' == caps + [Capture(s, CAP_POSITION)]
    case CloseCapture =>
      n == 0 && t == s && exists l: nat ::
        LastOpen(caps, l) && caps' == caps[l := Capture(caps[l].init, s - caps[l].init)]
    case Between(b, e) =>
      && n == 0 && caps' == caps && s < t <= |src| && src[s] == b && Even(src[s..t], b, e)
      && forall u :: s < u < t ==> !Even(src[s..u], b, e)
    case Border(complement, es) =>
      && n == 0 && t == s && caps' == caps
      && !Contains(Bracket(complement, es), if s == 0 then NUL else At(src, s - 1))
      && Contains(Bracket(complement, es), At(src, s))
    case Again(k) =>
      && n == 0 && caps' == caps && 1 <= k <= |caps|
      && var c := caps[k - 1];
         c.len >= 0 && t == s + c.len <= |src| && forall i :: 0 <= i < c.len ==> SameAt(src, s, c.init, i)
    case AtEnd => n == 0 && t == s == |src| && caps' == caps
  }

  /** Captures lie in what has been matched so far. */
  predicate Passed(caps: seq<Capture>, s: nat) {
    forall j :: 0 <= j < |caps| ==> caps[j].init <= s && (caps[j].len >= 0 ==> caps[j].init + caps[j].len <= s)
  }

  /** The piece may come next: no error of the matcher. */
  ghost predicate Possible(x: Piece, caps: seq<Capture>) {
    match x
    case OpenCapture => |caps| < MAXCAPTURES
    case PositionCapture => |caps| < MAXCAPTURES
    case CloseCapture => exists l: nat :: LastOpen(caps, l)
    case Again(k) => 1 <= k <= |caps| && caps[k - 1].len != CAP_UNFINISHED
    case _ => true
  }

  /** How the matcher reads a piece. */
  function ItemOf(x: Piece, i: nat): Item
    requires ValidPiece(x)
  {
    match x
    case Chars(set_, suffix) => Item.Class(i, i + |SetText(set_)|, RepeatOf(suffix))
    case OpenCapture => Item.Open
    case CloseCapture => Item.Close
    case PositionCapture => Item.Position
    case Between(b, e) => Item.Balance(b, e)
    case Border(complement, es) => Item.Frontier(i + 2, i + 2 + |SetText(Bracket(complement, es))|)
    case Again(k) => Item.BackRef(DIGITS[k])
    case AtEnd => Item.EndOfSubject
  }

  function RepeatOf(suffix: string): Repeat {
    if suffix == "*" then Star else if suffix == "+" then Plus else if suffix == "-" then Minus
    else if suffix == "?" then Optional else Once
  }

  /** What follows a piece must not be taken for a part of it. */
  predicate Apart(p: string, i: nat, x: Piece) {
    match x
    case Chars(_, suffix) => suffix == "" ==> At(p, i + |PieceText(x)|) !in "*+-?"
    case OpenCapture => At(p, i + 1) != ')'
    case AtEnd => At(p, i + 1) == NUL
    case _ => true
  }

  lemma SetStarts(x: Set)
    requires ValidSet(x)
    ensures SetText(x) != [] && SetText(x)[0] != NUL && SetText(x)[0] !in "*+-?()$"
    ensures SetText(x)[0] == ESC ==> |SetText(x)| >= 2 && SetText(x)[1] !in "bf" && !IsDigit(SetText(x)[1])
  {
    hide LOWER, UPPER, ElementsText;
    match x
    case Letter(c, escaped) => if escaped { EscapedStarts(c); }
    case Named(letter) => NamedStarts(letter);
    case _ =>
  }

  lemma EscapedStarts(c: char)
    requires Escapable(c)
    ensures c !in "bf" && !IsDigit(c)
  {
    hide LOWER, UPPER, DIGITS;
    LowerTable(c);
    DigitTable(c);
  }

  lemma NamedStarts(letter: char)
    requires ClassLetter(letter)
    ensures letter !in "bf" && !IsDigit(letter) && letter != NUL
  {
  }

  lemma CharsRead(p: string, i: nat, set_: Set, suffix: string)
    requires var x := Chars(set_, suffix); Stands(p, i, PieceText(x)) && ValidPiece(x) && Apart(p, i, x)
    ensures var x := Chars(set_, suffix); Read(p, i) == Next(ItemOf(x, i), i + |PieceText(x)|)
  {
    hide SetText, ClassEnd, SPECIALS, LOWER, UPPER, DIGITS, CLASSES, COMPLEMENTS, ValidSet, Stands, Contains;
    var w := SetText(set_);
    StandsParts(p, i, w, suffix);
    SetStarts(set_);
    SetIs(p, i, set_);
    StandsAt(p, i, w, 0);
    if w[0] == ESC { StandsAt(p, i, w, 1); }
    if suffix != "" { StandsAt(p, i + |w|, suffix, 0); }
    assert Read(p, i) == ReadClass(p, i);
  }

  lemma FrontierRead(p: string, i: nat, ep: nat)
    requires At(p, i) == ESC && At(p, i + 1) == 'f' && At(p, i + 2) == '[' && ClassEnd(p, i + 2) == Some(ep)
    ensures Read(p, i) == Next(Item.Frontier(i + 2, ep), ep)
  {
    hide ReadClass, ClassEnd;
  }

  lemma BorderRead(p: string, i: nat, complement: bool, es: seq<Element>)
    requires var x := Border(complement, es); Stands(p, i, PieceText(x)) && ValidPiece(x)
    ensures var x := Border(complement, es); Read(p, i) == Next(ItemOf(x, i), i + |PieceText(x)|)
  {
    hide ElementsText, SetEnd, InSet, Contains, SetText, ClassEnd, Read, Stands, ValidElements;
    var w := SetText(Bracket(complement, es));
    StandsParts(p, i, "%f", w);
    StandsAt(p, i, "%f", 0);
    StandsAt(p, i, "%f", 1);
    BracketIs(p, i + 2, complement, es);
    FrontierRead(p, i, i + 2 + |w|);
  }

  lemma DigitsAre(k: nat)
    requires 1 <= k <= 9
    ensures |DIGITS| == 10 && IsDigit(DIGITS[k]) && DIGITS[k] as int - '1' as int == k - 1
  {
  }

  lemma AgainRead(p: string, i: nat, k: nat)
    requires Stands(p, i, PieceText(Again(k))) && 1 <= k <= 9
    ensures Read(p, i) == Next(ItemOf(Again(k), i), i + 2)
  {
    hide DIGITS, ReadClass;
    DigitsAre(k);
    StandsAt(p, i, PieceText(Again(k)), 0);
    StandsAt(p, i, PieceText(Again(k)), 1);
  }

  /** The text of a piece is read as that piece. */
  lemma PieceRead(p: string, i: nat, x: Piece)
    requires Stands(p, i, PieceText(x)) && ValidPiece(x) && Apart(p, i, x)
    ensures Read(p, i) == Next(ItemOf(x, i), i + |PieceText(x)|)
  {
    hide SetText, ReadClass, SPECIALS, LOWER, UPPER, DIGITS, CLASSES, COMPLEMENTS, ValidSet;
    var w := PieceText(x);
    match x {
      case Chars(set_, suffix) => CharsRead(p, i, set_, suffix);
      case Border(complement, es) => BorderRead(p, i, complement, es);
      case Again(k) => AgainRead(p, i, k);
      case Between(b, e) =>
        StandsAt(p, i, w, 0);
        StandsAt(p, i, w, 1);
        StandsAt(p, i, w, 2);
        StandsAt(p, i, w, 3);
      case PositionCapture =>
        StandsAt(p, i, w, 0);
        StandsAt(p, i, w, 1);
      case _ => StandsAt(p, i, w, 0);
    }
  }

  // ----- balanced text, captures and back references

  /** The nesting depth is the number of opening characters minus the number of closing ones. */
  lemma {:induction false} DepthCounts(src: string, s: nat, t: nat, b: char, e: char)
    requires s <= t <= |src| && b != e
    ensures Depth(src, s, t, b, e) == multiset(src[s..t])[b] as int - multiset(src[s..t])[e] as int
    decreases t
  {
    if s < t {
      assert src[s..t] == src[s..t - 1] + [src[t - 1]];
      DepthCounts(src, s, t - 1, b, e);
    }
  }

  lemma NestingCounts(src: string, s: nat, t: nat, b: char, e: char)
    requires s < t <= |src| && b != e && src[s] == b
    ensures Nesting(src, s, t, b, e) == 0 <==> Even(src[s..t], b, e)
  {
    assert src[s..t] == [src[s]] + src[s + 1..t];
    DepthCounts(src, s + 1, t, b, e);
  }

  lemma BalancedIs(src: string, s: nat, t: nat, b: char, e: char)
    requires b != e
    ensures BalanceEnd(src, s, b, e) == Some(t) <==>
              && s < t <= |src| && src[s] == b && Even(src[s..t], b, e)
              && forall u :: s < u < t ==> !Even(src[s..u], b, e)
  {
    hide Depth, Even;
    forall u: nat | s < u <= |src| && src[s] == b
      ensures Nesting(src, s, u, b, e) == 0 <==> Even(src[s..u], b, e)
    {
      NestingCounts(src, s, u, b, e);
    }
    if Balanced(src, s, t, b, e) { BalanceUnique(src, s, b, e, t); }
  }

  lemma BalanceUnique(src: string, s: nat, b: char, e: char, t: nat)
    requires Balanced(src, s, t, b, e)
    ensures BalanceEnd(src, s, b, e) == Some(t)
  {
    hide Nesting;
    var r := BalanceEnd(src, s, b, e);
    assert r.Some? && Balanced(src, s, r.value, b, e);
  }

  lemma LastOpenIs(caps: seq<Capture>, l: nat)
    ensures LastOpen(caps, l) <==> ToClose(caps) == Some(l)
  {
  }

  /** A back reference, in any pattern whatever: it takes the match from s to t exactly if its
      capture is closed and the text of that capture stands between s and t. */
  lemma BackReference(src: string, caps: seq<Capture>, digit: char, s: nat, t: nat)
    requires Passed(caps, s) && s <= |src|
    ensures var l := digit as int - '1' as int;
            Referred(caps, digit).Some? ==>
              && 0 <= l < |caps| && Referred(caps, digit) == Some(l)
              && (RefEnd(src, caps[l], s) == Some(t) <==>
                    && caps[l].len >= 0 && t == s + caps[l].len <= |src|
                    && forall i :: 0 <= i < caps[l].len ==> SameAt(src, s, caps[l].init, i))
    ensures Referred(caps, digit).None? <==>
              var l := digit as int - '1' as int; !(0 <= l < |caps|) || caps[l].len == CAP_UNFINISHED
  {
    if Referred(caps, digit).Some? {
      var c := caps[Referred(caps, digit).value];
      if c.len >= 0 && s + c.len <= |src| {
        var a, b := src[s..s + c.len], src[c.init..c.init + c.len];
        forall i: nat | i < c.len ensures SameAt(src, s, c.init, i) <==> a[i] == b[i] {}
        if forall i: nat :: i < c.len ==> SameAt(src, s, c.init, i) { assert a == b; }
      }
    }
  }

  /** In the choices of any match, of whatever pattern, an item %n goes from s to t exactly if
      capture n is closed, has a text, and the same text stands between s and t. */
  lemma PlayReference(src: string, p: string, i: nat, ch: seq<nat>, s: nat, caps: seq<Capture>)
    requires Read(p, i).Next? && Read(p, i).item.BackRef? && Passed(caps, s) && s <= |src|
    ensures var l := Read(p, i).item.digit as int - '1' as int;
            Play(src, p, i, ch, s, caps) ==
              if ch != [] && ch[0] == 0 && 0 <= l < |caps| && caps[l].len >= 0 && s + caps[l].len <= |src|
                 && forall k :: 0 <= k < caps[l].len ==> SameAt(src, s, caps[l].init, k)
              then Play(src, p, Read(p, i).rest, ch[1..], s + caps[l].len, caps) else None
  {
    hide Read, SameAt;
    var digit := Read(p, i).item.digit;
    var l := digit as int - '1' as int;
    BackReference(src, caps, digit, s, if 0 <= l < |caps| && caps[l].len >= 0 then s + caps[l].len else 0);
    if Referred(caps, digit).Some? && RefEnd(src, caps[l], s).Some? {
      BackReference(src, caps, digit, s, RefEnd(src, caps[l], s).value);
    }
  }

  // ----- the matcher does what the manual says

  lemma CharsMove(src: string, p: string, i: nat, set_: Set, suffix: string, n: nat, s: nat, t: nat)
    requires var x := Chars(set_, suffix); Stands(p, i, PieceText(x)) && ValidPiece(x)
    ensures Allowed(RepeatOf(suffix), n) <==> Times(suffix, n)
    ensures t == s + n ==> (Run(src, p, i, i + |SetText(set_)|, s, n) <==>
                              t <= |src| && forall k :: s <= k < t ==> Contains(set_, src[k]))
  {
    hide SetText, SPECIALS, LOWER, UPPER, DIGITS, CLASSES, COMPLEMENTS, ValidSet, Contains, SingleMatch, Stands;
    StandsParts(p, i, SetText(set_), suffix);
    SetIs(p, i, set_);
  }

  lemma BorderMove(src: string, p: string, i: nat, complement: bool, es: seq<Element>, s: nat)
    requires var x := Border(complement, es); Stands(p, i, PieceText(x)) && ValidPiece(x)
    ensures var b := Bracket(complement, es);
            FrontierHere(src, p, i + 2, i + 2 + |SetText(b)|, s) <==>
              !Contains(b, if s == 0 then NUL else At(src, s - 1)) && Contains(b, At(src, s))
  {
    hide ElementsText, InSet, Contains, SetText, ClassEnd, Stands, ValidElements;
    StandsParts(p, i, "%f", SetText(Bracket(complement, es)));
    BracketIs(p, i + 2, complement, es);
  }

  lemma CloseMove(s: nat, caps: seq<Capture>, caps': seq<Capture>)
    requires exists l: nat :: LastOpen(caps, l)
    ensures ToClose(caps).Some?
    ensures var l := ToClose(caps).value;
            caps' == caps[l := caps[l].(len := s - caps[l].init)] <==>
              exists l: nat :: LastOpen(caps, l) && caps' == caps[l := Capture(caps[l].init, s - caps[l].init)]
  {
    forall l: nat ensures LastOpen(caps, l) <==> ToClose(caps) == Some(l) { LastOpenIs(caps, l); }
  }

  lemma AgainTake(src: string, p: string, i: nat, k: nat, n: nat, s: nat, caps: seq<Capture>, t: nat,
                  caps': seq<Capture>)
    requires ValidPiece(Again(k)) && Possible(Again(k), caps) && Passed(caps, s) && s <= |src|
    ensures Take(src, p, ItemOf(Again(k), i), n, s, caps) == To(t, caps') <==>
              Moves(src, Again(k), n, s, caps, t, caps')
    ensures Take(src, p, ItemOf(Again(k), i), 0, s, caps) != Error
  {
    hide DIGITS, SameAt, RefEnd, Referred, Passed;
    DigitsAre(k);
    BackReference(src, caps, DIGITS[k], s, t);
  }

  /** One item of the matcher against one piece of the manual. */
  lemma TakeIs(src: string, p: string, i: nat, x: Piece, n: nat, s: nat, caps: seq<Capture>, t: nat,
               caps': seq<Capture>)
    requires Stands(p, i, PieceText(x)) && ValidPiece(x) && Possible(x, caps) && Passed(caps, s) && s <= |src|
    ensures Take(src, p, ItemOf(x, i), n, s, caps) == To(t, caps') <==> Moves(src, x, n, s, caps, t, caps')
    ensures Take(src, p, ItemOf(x, i), 0, s, caps) != Error
  {
    hide SetText, SPECIALS, LOWER, UPPER, DIGITS, CLASSES, COMPLEMENTS, ValidSet, Contains, Run, Times, Allowed;
    hide FrontierHere, BalanceEnd, Even, RefEnd, SameAt, ToClose, LastOpen, Passed, Referred, Stands, RepeatOf;
    match x {
      case Chars(set_, suffix) => CharsMove(src, p, i, set_, suffix, n, s, s + n);
      case Border(complement, es) => BorderMove(src, p, i, complement, es, s);
      case Between(b, e) => BalancedIs(src, s, t, b, e);
      case CloseCapture => CloseMove(s, caps, caps');
      case Again(k) => AgainTake(src, p, i, k, n, s, caps, t, caps');
      case _ =>
    }
  }

  /** Moves go forward and leave captures behind. */
  lemma MovesPass(src: string, x: Piece, n: nat, s: nat, caps: seq<Capture>, t: nat, caps': seq<Capture>)
    requires Moves(src, x, n, s, caps, t, caps') && Passed(caps, s) && s <= |src|
    ensures s <= t <= |src| && Passed(caps', t)
  {
    hide Contains, Even, Times, SameAt;
  }

  // ----- whole patterns

  /** Captures open and close properly: open tells which ones are open so far. */
  ghost predicate Proper(pieces: seq<Piece>, open: seq<bool>)
    decreases |pieces|
  {
    if pieces == [] then true
    else
      var rest := pieces[1..];
      match pieces[0]
      case OpenCapture => |open| < MAXCAPTURES && Proper(rest, open + [true])
      case PositionCapture => |open| < MAXCAPTURES && Proper(rest, open + [false])
      case CloseCapture => exists l: nat :: LastTrue(open, l) && Proper(rest, open[l := false])
      case Again(k) => 1 <= k <= |open| && !open[k - 1] && Proper(rest, open)
      case _ => Proper(rest, open)
  }

  predicate LastTrue(open: seq<bool>, l: nat) {
    l < |open| && open[l] && forall j :: l < j < |open| ==> !open[j]
  }

  predicate Tracks(open: seq<bool>, caps: seq<Capture>) {
    |caps| == |open| && forall j :: 0 <= j < |caps| ==> (caps[j].len == CAP_UNFINISHED <==> open[j])
  }

  /** The choices ch take the match of all pieces from s to t. */
  ghost predicate Plays(src: string, pieces: seq<Piece>, ch: seq<nat>, s: nat, caps: seq<Capture>, t: nat,
                        caps': seq<Capture>)
    decreases |pieces|
  {
    if pieces == [] then ch == [] && t == s && caps' == caps
    else
      ch != [] && exists u: nat, c: seq<Capture> ::
        Moves(src, pieces[0], ch[0], s, caps, u, c) && Plays(src, pieces[1..], ch[1..], u, c, t, caps')
  }

  /** Choices that differ first at a piece where c asks for more, or after a '-' for less. */
  ghost predicate Ahead(pieces: seq<Piece>, c: seq<nat>, d: seq<nat>) {
    exists k: nat :: k < |pieces| && k < |c| && k < |d| && c[..k] == d[..k] && Sooner(pieces[k], c[k], d[k])
  }

  predicate Sooner(x: Piece, n: nat, m: nat) {
    if x.Chars? && x.suffix == "-" then n < m else n > m
  }

  /** The state of the captures after a piece. */
  lemma MovesTrack(src: string, x: Piece, rest: seq<Piece>, n: nat, s: nat, caps: seq<Capture>, t: nat,
                   caps': seq<Capture>, open: seq<bool>) returns (open': seq<bool>)
    requires Tracks(open, caps) && Passed(caps, s) && Proper([x] + rest, open) && Moves(src, x, n, s, caps, t, caps')
    ensures Tracks(open', caps') && Proper(rest, open')
  {
    hide Contains, Even, Times, SameAt;
    assert ([x] + rest)[1..] == rest;
    open' := open;
    match x {
      case OpenCapture => open' := open + [true];
      case PositionCapture => open' := open + [false];
      case CloseCapture =>
        var l: nat :| LastTrue(open, l) && Proper(rest, open[l := false]);
        var m: nat :| LastOpen(caps, m) && caps' == caps[m := Capture(caps[m].init, s - caps[m].init)];
        assert l == m;
        open' := open[l := false];
      case _ =>
    }
  }

  lemma ProperPossible(x: Piece, rest: seq<Piece>, caps: seq<Capture>, open: seq<bool>)
    requires Tracks(open, caps) && Proper([x] + rest, open)
    ensures Possible(x, caps)
  {
    assert ([x] + rest)[1..] == rest;
    if x.CloseCapture? {
      var l: nat :| LastTrue(open, l) && Proper(rest, open[l := false]);
      assert LastOpen(caps, l);
    }
  }

  lemma PieceStarts(x: Piece)
    requires ValidPiece(x)
    ensures PieceText(x) != [] && PieceText(x)[0] != NUL && PieceText(x)[0] !in "*+-?"
    ensures !x.CloseCapture? ==> PieceText(x)[0] != ')'
  {
    hide SetText, SPECIALS, LOWER, UPPER, DIGITS, CLASSES, COMPLEMENTS, ValidSet;
    if x.Chars? { SetStarts(x.set_); }
  }

  /** The first piece of a text and the rest. */
  lemma TextParts(p: string, i: nat, pieces: seq<Piece>)
    requires pieces != [] && Stands(p, i, Text(pieces)) && i + |Text(pieces)| == |p| && ValidPieces(pieces)
    ensures var w := PieceText(pieces[0]);
            && Stands(p, i, w) && ValidPiece(pieces[0]) && Apart(p, i, pieces[0])
            && Stands(p, i + |w|, Text(pieces[1..])) && i + |w| + |Text(pieces[1..])| == |p| && ValidPieces(pieces[1..])
  {
    hide PieceText, ValidPiece;
    var x, rest := pieces[0], pieces[1..];
    var w := PieceText(x);
    StandsParts(p, i, w, Text(rest));
    PiecesRest(pieces);
    if rest != [] {
      assert Text(rest) == PieceText(rest[0]) + Text(rest[1..]);
      StandsParts(p, i + |w|, PieceText(rest[0]), Text(rest[1..]));
      PieceStarts(rest[0]);
      StandsAt(p, i + |w|, PieceText(rest[0]), 0);
    }
    ApartIs(p, i, x, rest);
  }

  lemma PiecesRest(pieces: seq<Piece>)
    requires pieces != [] && ValidPieces(pieces)
    ensures ValidPieces(pieces[1..]) && ValidPiece(pieces[0])
    ensures pieces[1..] != [] ==> ValidPiece(pieces[1]) && !pieces[0].AtEnd?
                                  && (pieces[0].OpenCapture? ==> !pieces[1].CloseCapture?)
  {
    forall k | 0 <= k < |pieces[1..]| ensures pieces[1..][k] == pieces[k + 1] {}
  }

  lemma ApartIs(p: string, i: nat, x: Piece, rest: seq<Piece>)
    requires if rest == [] then i + |PieceText(x)| == |p|
             else !x.AtEnd? && At(p, i + |PieceText(x)|) !in "*+-?"
                  && (x.OpenCapture? ==> At(p, i + |PieceText(x)|) != ')')
    ensures Apart(p, i, x)
  {
    hide SetText;
  }

  lemma ReadEnd(p: string, i: nat)
    requires i == |p|
    ensures Read(p, i) == End
  {
  }

  /** Playing the text of the pieces is playing the pieces. */
  lemma {:induction false} PlayIs(src: string, p: string, i: nat, pieces: seq<Piece>, ch: seq<nat>, s: nat,
                                  caps: seq<Capture>, open: seq<bool>, t: nat, caps': seq<Capture>)
    requires Stands(p, i, Text(pieces)) && i + |Text(pieces)| == |p| && ValidPieces(pieces) && Proper(pieces, open)
    requires Tracks(open, caps) && Passed(caps, s) && s <= |src|
    ensures Play(src, p, i, ch, s, caps) == Some((t, caps')) <==> Plays(src, pieces, ch, s, caps, t, caps')
    decreases |pieces|
  {
    hide Read, Take, Moves, PieceText, ValidPiece, Tracks, Passed, Apart, Stands, Possible, Proper, ValidPieces;
    if pieces == [] {
      ReadEnd(p, i);
    } else {
      var x, rest := pieces[0], pieces[1..];
      var i' := i + |PieceText(x)|;
      assert pieces == [x] + rest;
      TextParts(p, i, pieces);
      PieceRead(p, i, x);
      ProperPossible(x, rest, caps, open);
      if ch != [] {
        forall u: nat, c: seq<Capture>
          ensures Take(src, p, ItemOf(x, i), ch[0], s, caps) == To(u, c) <==> Moves(src, x, ch[0], s, caps, u, c)
        {
          TakeIs(src, p, i, x, ch[0], s, caps, u, c);
        }
        var m := Take(src, p, ItemOf(x, i), ch[0], s, caps);
        if m.To? {
          MovesPass(src, x, ch[0], s, caps, m.s, m.caps);
          var open' := MovesTrack(src, x, rest, ch[0], s, caps, m.s, m.caps, open);
          PlayIs(src, p, i', rest, ch[1..], m.s, m.caps, open', t, caps');
        }
      }
    }
  }

  predicate Lengths(open: seq<bool>, lens: seq<int>) {
    |lens| == |open| && forall j :: 0 <= j < |lens| ==> (lens[j] == CAP_UNFINISHED <==> open[j])
  }

  lemma {:induction false} ClosedLengths(open: seq<bool>, lens: seq<int>, l: nat)
    requires Lengths(open, lens) && LastTrue(open, l)
    ensures CAP_UNFINISHED in lens && Closed(lens) == lens[l := 0] && Lengths(open[l := false], Closed(lens))
    decreases |lens|
  {
    assert lens[l] == CAP_UNFINISHED;
    var n := |lens| - 1;
    if l < n {
      ClosedLengths(open[..n], lens[..n], l);
      assert lens[l := 0] == lens[..n][l := 0] + [lens[n]];
    }
  }

  /** Proper patterns never make the matcher raise an error. */
  lemma {:induction false} WellFormedIs(p: string, i: nat, pieces: seq<Piece>, open: seq<bool>, lens: seq<int>)
    requires Stands(p, i, Text(pieces)) && i + |Text(pieces)| == |p| && ValidPieces(pieces) && Proper(pieces, open)
    requires Lengths(open, lens)
    ensures WellFormed(p, i, lens)
    decreases |pieces|
  {
    hide Read, PieceText, ValidPiece, Apart, Stands, ValidPieces, DIGITS, Closed, SetText;
    if pieces == [] {
      ReadEnd(p, i);
    } else {
      var x, rest := pieces[0], pieces[1..];
      TextParts(p, i, pieces);
      PieceRead(p, i, x);
      match x {
        case OpenCapture => WellFormedIs(p, i + |PieceText(x)|, rest, open + [true], lens + [CAP_UNFINISHED]);
        case PositionCapture => WellFormedIs(p, i + |PieceText(x)|, rest, open + [false], lens + [CAP_POSITION]);
        case CloseCapture =>
          var l: nat :| LastTrue(open, l) && Proper(rest, open[l := false]);
          ClosedLengths(open, lens, l);
          WellFormedIs(p, i + |PieceText(x)|, rest, open[l := false], Closed(lens));
        case Again(k) =>
          AgainValid(x);
          DigitsAre(k);
          WellFormedIs(p, i + |PieceText(x)|, rest, open, lens);
        case _ => WellFormedIs(p, i + |PieceText(x)|, rest, open, lens);
      }
    }
  }

  lemma AgainValid(x: Piece)
    requires ValidPiece(x) && x.Again?
    ensures 1 <= x.k <= 9
  {
  }

  lemma AheadSteps(x: Piece, rest: seq<Piece>, c: seq<nat>, d: seq<nat>)
    ensures Ahead([x] + rest, c, d) <==>
              && c != [] && d != []
              && (Sooner(x, c[0], d[0]) || (c[0] == d[0] && Ahead(rest, c[1..], d[1..])))
  {
    hide Sooner, Ahead;
    if Ahead([x] + rest, c, d) { AheadOnly(x, rest, c, d); }
    if c != [] && d != [] && Sooner(x, c[0], d[0]) { AheadNow(x, rest, c, d); }
    if c != [] && d != [] && c[0] == d[0] && Ahead(rest, c[1..], d[1..]) { AheadLater(x, rest, c, d); }
  }

  lemma AheadNow(x: Piece, rest: seq<Piece>, c: seq<nat>, d: seq<nat>)
    requires c != [] && d != [] && Sooner(x, c[0], d[0])
    ensures Ahead([x] + rest, c, d)
  {
    hide Sooner;
    assert c[..0] == d[..0] && Sooner(([x] + rest)[0], c[0], d[0]);
  }

  lemma AheadLater(x: Piece, rest: seq<Piece>, c: seq<nat>, d: seq<nat>)
    requires c != [] && d != [] && c[0] == d[0] && Ahead(rest, c[1..], d[1..])
    ensures Ahead([x] + rest, c, d)
  {
    hide Sooner;
    var k: nat :| k < |rest| && k < |c[1..]| && k < |d[1..]| && c[1..][..k] == d[1..][..k]
                  && Sooner(rest[k], c[1..][k], d[1..][k]);
    assert c[..k + 1] == [c[0]] + c[1..][..k];
    assert d[..k + 1] == [d[0]] + d[1..][..k];
    assert Sooner(([x] + rest)[k + 1], c[k + 1], d[k + 1]);
  }

  lemma AheadOnly(x: Piece, rest: seq<Piece>, c: seq<nat>, d: seq<nat>)
    requires Ahead([x] + rest, c, d)
    ensures c != [] && d != [] && (Sooner(x, c[0], d[0]) || (c[0] == d[0] && Ahead(rest, c[1..], d[1..])))
  {
    hide Sooner;
    var all := [x] + rest;
    var k: nat :| k < |all| && k < |c| && k < |d| && c[..k] == d[..k] && Sooner(all[k], c[k], d[k]);
    if k > 0 {
      assert c[0] == c[..k][0] && d[0] == d[..k][0];
      assert c[1..][..k - 1] == c[..k][1..];
      assert d[1..][..k - 1] == d[..k][1..];
      assert Sooner(rest[k - 1], c[1..][k - 1], d[1..][k - 1]);
    }
  }

  /** The order in which the matcher tries choices is that of the manual. */
  lemma {:induction false} BetterIs(p: string, i: nat, pieces: seq<Piece>, c: seq<nat>, d: seq<nat>)
    requires Stands(p, i, Text(pieces)) && i + |Text(pieces)| == |p| && ValidPieces(pieces)
    ensures Better(p, i, c, d) <==> Ahead(pieces, c, d)
    decreases |pieces|
  {
    hide Read, PieceText, Apart, Stands, ValidPieces, SetText, Ahead, ValidSet, DIGITS;
    if pieces == [] {
      ReadEnd(p, i);
      assert !Ahead([], c, d) by { NoneAhead(c, d); }
    } else {
      var x, rest := pieces[0], pieces[1..];
      assert pieces == [x] + rest;
      TextParts(p, i, pieces);
      PieceRead(p, i, x);
      AheadSteps(x, rest, c, d);
      if c != [] && d != [] { BetterIs(p, i + |PieceText(x)|, rest, c[1..], d[1..]); }
    }
  }

  lemma NoneAhead(c: seq<nat>, d: seq<nat>)
    ensures !Ahead([], c, d)
  {
  }

  /** r is what the manual calls the match of the pieces at s: the choices ch lead to it, and
      every other way to match comes later, because it differs first at a piece of which it
      takes fewer characters, or after a '-' more. */
  ghost predicate ManualMatch(src: string, pieces: seq<Piece>, s: nat, r: Result, ch: seq<nat>) {
    match r
    case Fail => false
    case Null => forall d, t, c :: !Plays(src, pieces, d, s, [], t, c)
    case Found(e, caps) =>
      && Plays(src, pieces, ch, s, [], e, caps)
      && forall d, t, c :: Plays(src, pieces, d, s, [], t, c) ==> d == ch || Ahead(pieces, ch, d)
  }

  /** Main theorem: on the text of any pattern that the manual allows the search finds what the
      manual describes. */
  lemma ManualBest(src: string, pieces: seq<Piece>, s: nat) returns (ch: seq<nat>)
    requires ValidPieces(pieces) && Proper(pieces, []) && s <= |src|
    ensures ManualMatch(src, pieces, s, First(src, Text(pieces), 0, s, []), ch)
  {
    hide Read, Take, Moves, PieceText, ValidPiece, Proper, ValidPieces, First, Play, Plays, Better, Ahead, Text;
    var p := Text(pieces);
    assert Stands(p, 0, p);
    WellFormedIs(p, 0, pieces, [], []);
    ch := FirstBest(src, p, 0, s, [], []);
    forall d, t: nat, c ensures Play(src, p, 0, d, s, []) == Some((t, c)) <==> Plays(src, pieces, d, s, [], t, c) {
      PlayIs(src, p, 0, pieces, d, s, [], [], t, c);
    }
    forall d ensures Better(p, 0, ch, d) <==> Ahead(pieces, ch, d) { BetterIs(p, 0, pieces, ch, d); }
  }

  // ----- malformed patterns

  /** How many '%' stand directly before j, not counting those before i. */
  function Escapes(p: string, i: nat, j: nat): nat
    requires i <= j <= |p|
  {
    if j == i || p[j - 1] != ESC then 0 else 1 + Escapes(p, i, j - 1)
  }

  /** A ']' after i that no '%' takes away. */
  predicate Closes(p: string, i: nat, j: nat) {
    i < j < |p| && p[j] == ']' && Escapes(p, i, j) % 2 == 0
  }

  predicate NoZeros(p: string) {
    forall k :: 0 <= k < |p| ==> p[k] != NUL
  }

  /** Starting to count after an escape, or after a plain character, makes no difference. */
  lemma {:induction false} EscapesFrom(p: string, i: nat, j: nat, k: nat)
    requires i < j <= k <= |p| && if p[i] == ESC then j == i + 2 else j == i + 1
    ensures Escapes(p, i, k) % 2 == Escapes(p, j, k) % 2
    decreases k
  {
    if k == j {
      assert Escapes(p, i, i) == 0;
      assert Escapes(p, i, i + 1) == if p[i] == ESC then 1 else 0;
    } else if p[k - 1] == ESC {
      EscapesFrom(p, i, j, k - 1);
    }
  }

  /** The search for the end of a set finds the first ']' that closes it. */
  lemma {:induction false} SetEndExact(p: string, i: nat, j: nat)
    requires NoZeros(p)
    ensures SetEnd(p, i) == Some(j) <==> Closes(p, i, j) && forall k :: i < k < j ==> !Closes(p, i, k)
    decreases |p| - i
  {
    if i < |p| {
      var n := if p[i] == ESC && i + 1 < |p| then i + 2 else i + 1;
      forall k: nat
        ensures Closes(p, i, k) <==> (k == n && At(p, n) == ']') || (n <= |p| && k > n && Closes(p, n, k))
      {
        ClosesStep(p, i, n, k);
      }
      if At(p, n) == ']' {
        assert SetEnd(p, i) == Some(n);
        assert Closes(p, i, n);
      } else {
        assert SetEnd(p, i) == SetEnd(p, n);
        assert !Closes(p, i, n);
        SetEndExact(p, n, j);
        assert forall k: nat :: Closes(p, i, k) <==> k > n && Closes(p, n, k);
      }
    }
  }

  lemma ClosesStep(p: string, i: nat, n: nat, k: nat)
    requires i < n <= |p| && n == if p[i] == ESC && i + 1 < |p| then i + 2 else i + 1
    ensures Closes(p, i, k) <==> (k == n && At(p, n) == ']') || (k > n && Closes(p, n, k))
  {
    assert Escapes(p, i, i) == 0 && Escapes(p, i, i + 1) == if p[i] == ESC then 1 else 0;
    if i + 1 < |p| && n <= k <= |p| { EscapesFrom(p, i, n, k); }
  }

  /** Where the elements of the set at i begin. */
  function Inside(p: string, i: nat): nat {
    if At(p, i + 1) == '^' then i + 2 else i + 1
  }

  /** No ']' closes the set that opens at i. */
  ghost predicate Unclosed(p: string, i: nat) {
    forall j: nat :: !Closes(p, Inside(p, i), j)
  }

  lemma UnclosedIs(p: string, i: nat)
    requires NoZeros(p) && i < |p| && p[i] == '['
    ensures ClassEnd(p, i).None? <==> Unclosed(p, i)
  {
    hide Closes;
    var first := Inside(p, i);
    forall j: nat ensures SetEnd(p, first) == Some(j) <==> Closes(p, first, j) && forall k :: first < k < j ==>
        !Closes(p, first, k)
    {
      SetEndExact(p, first, j);
    }
    if !Unclosed(p, i) {
      var j: nat :| Closes(p, first, j);
      FirstClosing(p, first, j);
    }
  }

  lemma {:induction false} FirstClosing(p: string, i: nat, j: nat)
    requires Closes(p, i, j)
    ensures exists k: nat :: Closes(p, i, k) && forall n :: i < n < k ==> !Closes(p, i, n)
    decreases j
  {
    hide Closes;
    if n: nat :| i < n < j && Closes(p, i, n) { FirstClosing(p, i, n); }
    else { assert forall n :: i < n < j ==> !Closes(p, i, n); }
  }

  /** An item cannot be read exactly if the pattern ends with '%', a set is not closed, %b lacks
      one of its characters, or no set follows %f. */
  lemma MalformedIff(p: string, i: nat)
    requires NoZeros(p)
    ensures Read(p, i).Bad? <==>
              && i < |p|
              && match p[i]
                 case '[' => Unclosed(p, i)
                 case '%' =>
                   || i + 1 == |p|
                   || (p[i + 1] == 'b' && i + 3 >= |p|)
                   || (p[i + 1] == 'f' && (i + 2 >= |p| || p[i + 2] != '[' || Unclosed(p, i + 2)))
                 case _ => false
  {
    hide Unclosed, SetEnd;
    if i < |p| && p[i] == '[' { UnclosedIs(p, i); }
    if i + 2 < |p| && p[i + 2] == '[' { UnclosedIs(p, i + 2); }
  }
}
