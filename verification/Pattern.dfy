/** Lua patterns: how a pattern is read, and what it means.  A pattern is a sequence of items.
    An item that may be repeated leaves a choice, how often; a sequence of choices fixes
    everything else.  The best match is the one whose choices come first: more repetitions
    before fewer for '*', '+' and '?', fewer before more for '-', earlier items counting more. */
module Pattern {
  import opened Common

  const NUL: char := '\0'
  const ESC: char := '%'
  const MAXCAPTURES: nat := 32

  /** The character at i; strings end with a zero. */
  function At(p: string, i: int): char {
    if 0 <= i < |p| then p[i] else NUL
  }

  // ----- character classes, in the "C" locale

  predicate IsLower(c: char) { 'a' <= c <= 'z' }
  predicate IsUpper(c: char) { 'A' <= c <= 'Z' }
  predicate IsAlpha(c: char) { IsLower(c) || IsUpper(c) }
  predicate IsDigit(c: char) { '0' <= c <= '9' }
  predicate IsAlnum(c: char) { IsAlpha(c) || IsDigit(c) }
  predicate IsXDigit(c: char) { IsDigit(c) || 'a' <= c <= 'f' || 'A' <= c <= 'F' }
  predicate IsSpace(c: char) { 9 <= c as int <= 13 || c == ' ' }
  predicate IsCntrl(c: char) { c as int < 32 || c as int == 127 }
  predicate IsPunct(c: char) { 33 <= c as int <= 126 && !IsAlnum(c) }

  function Lower(c: char): char {
    if IsUpper(c) then (c as int + 32) as char else c
  }

  /** match_class: c belongs to the class %cl; an upper case letter stands for the complement. */
  predicate MatchClass(c: char, cl: char) {
    var negated := !IsLower(cl);
    match Lower(cl)
    case 'a' => IsAlpha(c) != negated
    case 'c' => IsCntrl(c) != negated
    case 'd' => IsDigit(c) != negated
    case 'l' => IsLower(c) != negated
    case 'p' => IsPunct(c) != negated
    case 's' => IsSpace(c) != negated
    case 'u' => IsUpper(c) != negated
    case 'w' => IsAlnum(c) != negated
    case 'x' => IsXDigit(c) != negated
    case 'z' => (c == NUL) != negated
    case _ => cl == c
  }

  // ----- sets

  /** Where the element of a set that starts at i ends, if the set ends with the ']' at ec. */
  function ElementEnd(p: string, i: int, ec: int): int {
    if At(p, i) == ESC then i + 2 else if At(p, i + 1) == '-' && i + 2 < ec then i + 3 else i + 1
  }

  predicate InElement(c: char, p: string, i: int, ec: int) {
    if At(p, i) == ESC then MatchClass(c, At(p, i + 1))
    else if At(p, i + 1) == '-' && i + 2 < ec then At(p, i) <= c <= At(p, i + 2)
    else At(p, i) == c
  }

  /** c belongs to one of the elements from i on. */
  predicate InSome(c: char, p: string, i: int, ec: int)
    decreases ec - i
  {
    i < ec && (InElement(c, p, i, ec) || InSome(c, p, ElementEnd(p, i, ec), ec))
  }

  predicate Negated(p: string, i: int) {
    At(p, i + 1) == '^'
  }

  /** c belongs to the set between the '[' at i and the ']' at ec. */
  predicate InSet(c: char, p: string, i: int, ec: int) {
    InSome(c, p, if Negated(p, i) then i + 2 else i + 1, ec) != Negated(p, i)
  }

  /** singlematch: c matches the single character class between i and ep. */
  predicate SingleMatch(c: char, p: string, i: int, ep: int) {
    match At(p, i)
    case '.' => true
    case '%' => MatchClass(c, At(p, i + 1))
    case '[' => InSet(c, p, i, ep - 1)
    case x => x == c
  }

  // ----- reading a pattern

  /** The ']' that closes a set, searched from i on; what is at i itself does not close it. */
  function SetEnd(p: string, i: nat): (r: Option<nat>)
    ensures r.Some? ==> i < r.value < |p| && p[r.value] == ']'
    decreases |p| - i
  {
    if At(p, i) == NUL then None
    else
      var j := if At(p, i) == ESC && At(p, i + 1) != NUL then i + 2 else i + 1;
      if At(p, j) == ']' then Some(j) else SetEnd(p, j)
  }

  /** classend: the end of the class that starts at i, if it is well formed. */
  function ClassEnd(p: string, i: nat): (r: Option<nat>)
    requires i < |p|
    ensures r.Some? ==> i < r.value <= |p|
  {
    match p[i]
    case '%' => if At(p, i + 1) == NUL then None else Some(i + 2)
    case '[' =>
      (match SetEnd(p, if At(p, i + 1) == '^' then i + 2 else i + 1)
       case None => None
       case Some(j) => Some(j + 1))
    case _ => Some(i + 1)
  }

  datatype Repeat = Once | Optional | Star | Plus | Minus

  datatype Item =
    | Class(from: nat, to: nat, rep: Repeat)
    | Open
    | Position
    | Close
    | Balance(b: char, e: char)
    | Frontier(from: nat, to: nat)
    | BackRef(digit: char)
    | EndOfSubject

  datatype Reading = Bad | End | Next(item: Item, rest: nat)

  function RepeatAt(p: string, i: nat): Repeat {
    match At(p, i)
    case '?' => Optional
    case '*' => Star
    case '+' => Plus
    case '-' => Minus
    case _ => Once
  }

  function ReadClass(p: string, i: nat): (r: Reading)
    requires i < |p|
    ensures !r.End? && (r.Next? ==> i < r.rest <= |p| && r.item.Class? && r.item.from == i < r.item.to <= r.rest)
  {
    match ClassEnd(p, i)
    case None => Bad
    case Some(ep) =>
      var rep := RepeatAt(p, ep);
      Next(Class(i, ep, rep), if rep.Once? then ep else ep + 1)
  }

  /** The item at i and where the next one starts. */
  function Read(p: string, i: nat): (r: Reading)
    ensures r.Next? ==> i < r.rest <= |p|
  {
    if At(p, i) == NUL then End
    else
      match p[i]
      case '(' => if At(p, i + 1) == ')' then Next(Position, i + 2) else Next(Open, i + 1)
      case ')' => Next(Close, i + 1)
      case '$' => if At(p, i + 1) == NUL then Next(EndOfSubject, i + 1) else ReadClass(p, i)
      case '%' => ReadEscape(p, i)
      case _ => ReadClass(p, i)
  }

  function ReadEscape(p: string, i: nat): (r: Reading)
    requires i < |p| && p[i] == ESC
    ensures r.Next? ==> i < r.rest <= |p|
  {
    match At(p, i + 1)
    case 'b' => if At(p, i + 2) == NUL || At(p, i + 3) == NUL then Bad else Next(Balance(p[i + 2], p[i + 3]), i + 4)
    case 'f' =>
      if At(p, i + 2) != '[' then Bad
      else
        (match ClassEnd(p, i + 2)
         case None => Bad
         case Some(ep) => Next(Frontier(i + 2, ep), ep))
    case c => if IsDigit(c) then Next(BackRef(c), i + 2) else ReadClass(p, i)
  }

  // ----- captures

  /** len is CAP_UNFINISHED while a capture is open, CAP_POSITION for a position capture. */
  datatype Capture = Capture(init: nat, len: int)

  const CAP_UNFINISHED: int := -1
  const CAP_POSITION: int := -2

  /** capture_to_close: the last capture that is still open. */
  function ToClose(caps: seq<Capture>): (r: Option<nat>)
    ensures r.Some? ==> r.value < |caps| && caps[r.value].len == CAP_UNFINISHED && forall j ::
            r.value < j < |caps| ==> caps[j].len != CAP_UNFINISHED
    ensures r.None? ==> forall j :: 0 <= j < |caps| ==> caps[j].len != CAP_UNFINISHED
  {
    if caps == [] then None
    else if caps[|caps| - 1].len == CAP_UNFINISHED then Some(|caps| - 1)
    else ToClose(caps[..|caps| - 1])
  }

  /** check_capture. */
  function Referred(caps: seq<Capture>, digit: char): (r: Option<nat>)
    ensures r.Some? ==> r.value < |caps| && caps[r.value].len != CAP_UNFINISHED
  {
    var l := digit as int - '1' as int;
    if l < 0 || l >= |caps| || caps[l].len == CAP_UNFINISHED then None else Some(l)
  }

  /** The text of a closed capture; a position capture, as a length, is longer than anything. */
  function RefEnd(src: string, cap: Capture, s: nat): Option<nat> {
    if cap.len >= 0 && s + cap.len <= |src| && cap.init + cap.len <= |src|
      && src[cap.init..cap.init + cap.len] == src[s..s + cap.len]
    then Some(s + cap.len) else None
  }

  // ----- balanced strings

  /** The nesting depth after the characters from s up to t; b opens, e closes and goes first. */
  function Depth(src: string, s: nat, t: nat, b: char, e: char): int
    requires s <= t <= |src|
  {
    if s == t then 0
    else Depth(src, s, t - 1, b, e) + (if src[t - 1] == e then -1 else if src[t - 1] == b then 1 else 0)
  }

  /** The depth after the opening character at s and what follows it up to t. */
  function Nesting(src: string, s: nat, t: nat, b: char, e: char): int {
    if s < t <= |src| then 1 + Depth(src, s + 1, t, b, e) else 1
  }

  /** src[s..t] starts with b and t is the first place where it is balanced. */
  ghost predicate Balanced(src: string, s: nat, t: nat, b: char, e: char) {
    && s < t <= |src| && src[s] == b && Nesting(src, s, t, b, e) == 0
    && forall u :: s < u < t ==> Nesting(src, s, u, b, e) != 0
  }

  ghost function BalanceEnd(src: string, s: nat, b: char, e: char): (r: Option<nat>)
    ensures r.Some? ==> Balanced(src, s, r.value, b, e)
    ensures r.None? ==> forall t :: !Balanced(src, s, t, b, e)
  {
    if t: nat :| Balanced(src, s, t, b, e) then Some(t) else None
  }

  lemma BalanceIs(src: string, s: nat, t: nat, b: char, e: char)
    requires Balanced(src, s, t, b, e)
    ensures BalanceEnd(src, s, b, e) == Some(t)
  {
  }

  // ----- what one item does

  predicate FrontierHere(src: string, p: string, from: nat, to: nat, s: nat) {
    !InSet(if s == 0 then NUL else At(src, s - 1), p, from, to - 1) && InSet(At(src, s), p, from, to - 1)
  }

  /** The n characters from s on match the class. */
  predicate Run(src: string, p: string, from: nat, to: nat, s: nat, n: nat) {
    s + n <= |src| && forall i :: s <= i < s + n ==> SingleMatch(src[i], p, from, to)
  }

  datatype Move = Stuck | Error | To(s: nat, caps: seq<Capture>)

  predicate Allowed(rep: Repeat, n: nat) {
    match rep
    case Once => n == 1
    case Optional => n <= 1
    case Star => true
    case Plus => n >= 1
    case Minus => true
  }

  /** What an item does at s, if a class is repeated n times; other items know no choice. */
  ghost function Take(src: string, p: string, item: Item, n: nat, s: nat, caps: seq<Capture>): Move {
    match item
    case Class(from, to, rep) => if Allowed(rep, n) && Run(src, p, from, to, s, n) then To(s + n, caps) else Stuck
    case _ => if n != 0 then Stuck else Plain(src, p, item, s, caps)
  }

  ghost function Plain(src: string, p: string, item: Item, s: nat, caps: seq<Capture>): Move
    requires !item.Class?
  {
    match item
    case Open => if |caps| >= MAXCAPTURES then Error else To(s, caps + [Capture(s, CAP_UNFINISHED)])
    case Position => if |caps| >= MAXCAPTURES then Error else To(s, caps + [Capture(s, CAP_POSITION)])
    case Close =>
      (match ToClose(caps)
       case None => Error
       case Some(l) => To(s, caps[l := caps[l].(len := s - caps[l].init)]))
    case Balance(b, e) =>
      (match BalanceEnd(src, s, b, e)
       case None => Stuck
       case Some(t) => To(t, caps))
    case Frontier(from, to) => if FrontierHere(src, p, from, to, s) then To(s, caps) else Stuck
    case BackRef(digit) =>
      (match Referred(caps, digit)
       case None => Error
       case Some(l) => match RefEnd(src, caps[l], s) case None => Stuck case Some(t) => To(t, caps))
    case EndOfSubject => if s == |src| then To(s, caps) else Stuck
  }

  // ----- what a pattern means

  /** The pattern from i on, with the choices made, matches the subject from s on. */
  ghost function Play(src: string, p: string, i: nat, choices: seq<nat>, s: nat, caps: seq<Capture>): Option<(nat,
                      seq<Capture>)>
    decreases |choices|
  {
    match Read(p, i)
    case Bad => None
    case End => if choices == [] then Some((s, caps)) else None
    case Next(item, rest) =>
      if choices == [] then None
      else
        match Take(src, p, item, choices[0], s, caps)
        case To(s', caps') => Play(src, p, rest, choices[1..], s', caps')
        case _ => None
  }

  /** n repetitions are tried before m. */
  predicate Before(item: Item, n: nat, m: nat) {
    if item.Class? && item.rep.Minus? then n < m else n > m
  }

  /** The choices c come before d. */
  predicate Better(p: string, i: nat, c: seq<nat>, d: seq<nat>)
    decreases |c|
  {
    match Read(p, i)
    case Next(item, rest) =>
      c != [] && d != [] && (Before(item, c[0], d[0]) || (c[0] == d[0] && Better(p, rest, c[1..], d[1..])))
    case _ => false
  }

  /** Well formed patterns: every item can be read, every ')' and every %n refers to a capture
      that is open, or closed.  The captures so far are known by their lengths. */
  predicate WellFormed(p: string, i: nat, lens: seq<int>)
    decreases |p| - i
  {
    match Read(p, i)
    case Bad => false
    case End => true
    case Next(item, rest) =>
      match item
      case Open => |lens| < MAXCAPTURES && WellFormed(p, rest, lens + [CAP_UNFINISHED])
      case Position => |lens| < MAXCAPTURES && WellFormed(p, rest, lens + [CAP_POSITION])
      case Close => CAP_UNFINISHED in lens && WellFormed(p, rest, Closed(lens))
      case BackRef(digit) =>
        var l := digit as int - '1' as int;
        0 <= l < |lens| && lens[l] != CAP_UNFINISHED && WellFormed(p, rest, lens)
      case _ => WellFormed(p, rest, lens)
  }

  /** The last open capture is closed; 0 stands for any length. */
  function Closed(lens: seq<int>): (r: seq<int>)
    ensures |r| == |lens|
  {
    if lens == [] then []
    else if lens[|lens| - 1] == CAP_UNFINISHED then lens[|lens| - 1 := 0]
    else Closed(lens[..|lens| - 1]) + [lens[|lens| - 1]]
  }
}
