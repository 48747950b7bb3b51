/** The matcher in the form the source has: captures are kept in an array that is shared by
    the whole search and put right again whenever a branch fails. */
module LuaMatch {
  import opened Common
  import opened Pattern
  import opened PatternBest

  datatype Pointer = NullPointer | Raised | Into(at: nat)

  // ----- how the search unfolds at a class

  predicate Here(src: string, p: string, from: nat, to: nat, s: nat) {
    s < |src| && SingleMatch(src[s], p, from, to)
  }

  lemma RunHere(src: string, p: string, from: nat, to: nat, s: nat)
    ensures MaxRun(src, p, from, to, s) == if Here(src, p, from, to, s) then 1 + MaxRun(src, p, from, to, s + 1) else 0
  {
  }

  /** The item at i is the class up to ep with its suffix. */
  predicate ClassAt(p: string, i: nat, ep: nat) {
    i < |p| && ClassEnd(p, i) == Some(ep) && Read(p, i) == ReadClass(p, i)
  }

  lemma OnceIs(src: string, p: string, i: nat, ep: nat, s: nat, caps: seq<Capture>)
    requires ClassAt(p, i, ep) && RepeatAt(p, ep).Once?
    ensures First(src, p, i, s, caps) == if Here(src, p, i, ep, s) then First(src, p, ep, s + 1, caps) else Null
  {
    hide Here, Read, SingleMatch;
    RunHere(src, p, i, ep, s);
  }

  lemma OptionalIs(src: string, p: string, i: nat, ep: nat, s: nat, caps: seq<Capture>)
    requires ClassAt(p, i, ep) && RepeatAt(p, ep).Optional?
    ensures First(src, p, i, s, caps) ==
              var r := First(src, p, ep + 1, s + 1, caps);
              if Here(src, p, i, ep, s) && !r.Null? then r else First(src, p, ep + 1, s, caps)
  {
    hide Here, Read, SingleMatch;
    RunHere(src, p, i, ep, s);
    assert s + 0 == s;
    assert Downward(src, p, ep + 1, s, caps, 0, 0) == First(src, p, ep + 1, s, caps);
  }

  lemma StarIs(src: string, p: string, i: nat, ep: nat, s: nat, caps: seq<Capture>)
    requires ClassAt(p, i, ep) && RepeatAt(p, ep).Star?
    ensures First(src, p, i, s, caps) == Downward(src, p, ep + 1, s, caps, MaxRun(src, p, i, ep, s), 0)
  {
    hide Read, SingleMatch, MaxRun;
  }

  lemma PlusIs(src: string, p: string, i: nat, ep: nat, s: nat, caps: seq<Capture>)
    requires ClassAt(p, i, ep) && RepeatAt(p, ep).Plus?
    ensures First(src, p, i, s, caps) ==
              if Here(src, p, i, ep, s) then Downward(src, p, ep + 1, s + 1, caps, MaxRun(src, p, i, ep, s + 1), 0)
                                        else Null
  {
    hide Here, Read, SingleMatch, MaxRun;
    RunHere(src, p, i, ep, s);
    if Here(src, p, i, ep, s) { DownwardShift(src, p, ep + 1, s, caps, MaxRun(src, p, i, ep, s)); }
  }

  lemma {:induction false} DownwardShift(src: string, p: string, rest: nat, s: nat, caps: seq<Capture>, n: nat)
    requires n >= 1
    ensures Downward(src, p, rest, s, caps, n, 1) == Downward(src, p, rest, s + 1, caps, n - 1, 0)
    decreases n
  {
    hide First;
    assert s + n == s + 1 + (n - 1);
    if n > 1 { DownwardShift(src, p, rest, s, caps, n - 1); }
  }

  lemma MinusIs(src: string, p: string, i: nat, ep: nat, s: nat, caps: seq<Capture>)
    requires ClassAt(p, i, ep) && RepeatAt(p, ep).Minus?
    ensures First(src, p, i, s, caps) == Upward(src, p, ep + 1, s, caps, 0, MaxRun(src, p, i, ep, s))
  {
    hide Read, SingleMatch, MaxRun;
  }

  class MatchState {
    const src: string
    const pat: string
    var level: nat
    const capture: array<Capture>

    constructor (src: string, pat: string)
      ensures this.src == src && this.pat == pat && Valid() && level == 0 && fresh(capture)
    {
      this.src, this.pat, level := src, pat, 0;
      capture := new Capture[MAXCAPTURES](_ => Capture(0, CAP_UNFINISHED));
    }

    ghost predicate Valid()
      reads this
    {
      capture.Length == MAXCAPTURES && level <= MAXCAPTURES
    }

    ghost function Caps(): seq<Capture>
      requires Valid()
      reads this, capture
    {
      capture[..level]
    }

    /** A search that returns NULL leaves the level and the captures below it as they were. */
    ghost predicate Agrees(r: Pointer, spec: Result, caps: seq<Capture>)
      reads this, capture
    {
      Valid() &&
      match spec
      case Null => r == NullPointer && Caps() == caps
      case Fail => r == Raised
      case Found(e, c) => r == Into(e) && Caps() == c
    }

    // ----- reading the pattern

    /** classend. */
    method EndOfClass(i: nat) returns (r: Option<nat>)
      requires i < |pat|
      ensures r == ClassEnd(pat, i)
    {
      var p := i + 1;
      if pat[i] == ESC {
        if At(pat, p) == NUL { return None; }
        return Some(p + 1);
      } else if pat[i] == '[' {
        if At(pat, p) == '^' { p := p + 1; }
        while true
          invariant SetEnd(pat, p) == SetEnd(pat, if At(pat, i + 1) == '^' then i + 2 else i + 1)
          decreases |pat| - p
        {
          if At(pat, p) == NUL { return None; }
          p := p + 1;
          if pat[p - 1] == ESC && At(pat, p) != NUL { p := p + 1; }
          if At(pat, p) == ']' { return Some(p + 1); }
        }
      }
      return Some(p);
    }

    /** matchbracketclass. */
    method MatchBracketClass(c: char, i: int, ec: int) returns (b: bool)
      ensures b == InSet(c, pat, i, ec)
    {
      hide MatchClass;
      var p, sig := i, true;
      if At(pat, p + 1) == '^' { sig, p := false, p + 1; }
      p := p + 1;
      while p < ec
        invariant sig == !Negated(pat, i)
        invariant InSome(c, pat, p, ec) == InSome(c, pat, if Negated(pat, i) then i + 2 else i + 1, ec)
        decreases ec - p
      {
        if At(pat, p) == ESC {
          p := p + 1;
          if MatchClass(c, At(pat, p)) { return sig; }
        } else if At(pat, p + 1) == '-' && p + 2 < ec {
          p := p + 2;
          if At(pat, p - 2) <= c <= At(pat, p) { return sig; }
        } else if At(pat, p) == c {
          return sig;
        }
        p := p + 1;
      }
      return !sig;
    }

    /** singlematch. */
    method MatchSingle(c: char, i: int, ep: int) returns (b: bool)
      ensures b == SingleMatch(c, pat, i, ep)
    {
      hide MatchClass, InSet;
      match At(pat, i)
      case '.' => b := true;
      case '%' => b := MatchClass(c, At(pat, i + 1));
      case '[' => b := MatchBracketClass(c, i, ep - 1);
      case x => b := x == c;
    }

    method MatchHere(s: nat, i: nat, ep: nat) returns (b: bool)
      ensures b == Here(src, pat, i, ep, s)
    {
      hide SingleMatch;
      if s < |src| { b := MatchSingle(src[s], i, ep); } else { b := false; }
    }

    /** matchbalance, for the two characters at p. */
    method MatchBalance(s: nat, p: nat) returns (r: Pointer)
      requires s <= |src|
      ensures r.Raised? <==> At(pat, p) == NUL || At(pat, p + 1) == NUL
      ensures !r.Raised? ==> r == match BalanceEnd(src, s, At(pat, p), At(pat, p + 1)) case None => NullPointer
              case Some(t) => Into(t)
    {
      if At(pat, p) == NUL || At(pat, p + 1) == NUL { return Raised; }
      var b, e, cont, t := At(pat, p), At(pat, p + 1), 1, s + 1;
      if At(src, s) != b { return NullPointer; }
      while t < |src|
        invariant s < t <= |src| && src[s] == b && cont == Nesting(src, s, t, b, e)
        invariant forall u :: s < u <= t ==> Nesting(src, s, u, b, e) != 0
      {
        if src[t] == e {
          cont := cont - 1;
          if cont == 0 {
            assert Balanced(src, s, t + 1, b, e);
            BalanceIs(src, s, t + 1, b, e);
            return Into(t + 1);
          }
        } else if src[t] == b {
          cont := cont + 1;
        }
        t := t + 1;
      }
      return NullPointer;
    }

    // ----- repetitions

    /** max_expand. */
    method MaxExpand(s: nat, p: nat, ep: nat) returns (r: Pointer)
      requires Valid() && s <= |src| && p < ep < |pat|
      modifies this, capture
      ensures Agrees(r, Downward(src, pat, ep + 1, s, old(Caps()), MaxRun(src, pat, p, ep, s), 0), old(Caps()))
      decreases |pat| - ep, 0
    {
      hide First, Here, MaxRun;
      var i := 0;
      RunHere(src, pat, p, ep, s);
      while true
        invariant 0 <= i && s + i <= |src| && Valid() && Caps() == old(Caps())
        invariant MaxRun(src, pat, p, ep, s) == i + MaxRun(src, pat, p, ep, s + i)
        decreases |src| - i
      {
        RunHere(src, pat, p, ep, s + i);
        InBounds(src, pat, p, ep, s + i);
        var more := MatchHere(s + i, p, ep);
        if !more { break; }
        i := i + 1;
      }
      while i >= 0
        invariant -1 <= i && s + i <= |src| && Valid() && Caps() == old(Caps())
        invariant i >= 0 ==>
                  Downward(src, pat, ep + 1, s, Caps(), i, 0)
                    == Downward(src, pat, ep + 1, s, Caps(), MaxRun(src, pat, p, ep, s), 0)
        invariant i < 0 ==> Downward(src, pat, ep + 1, s, Caps(), MaxRun(src, pat, p, ep, s), 0) == Null
        decreases i + 1
      {
        r := Match(s + i, ep + 1);
        if r != NullPointer { return; }
        i := i - 1;
      }
      return NullPointer;
    }

    /** min_expand. */
    method MinExpand(s: nat, p: nat, ep: nat) returns (r: Pointer)
      requires Valid() && s <= |src| && p < ep < |pat|
      modifies this, capture
      ensures Agrees(r, Upward(src, pat, ep + 1, s, old(Caps()), 0, MaxRun(src, pat, p, ep, s)), old(Caps()))
      decreases |pat| - ep, 0
    {
      hide First, Here, MaxRun;
      var t := s;
      ghost var run := MaxRun(src, pat, p, ep, s);
      while true
        invariant s <= t <= |src| && Valid() && Caps() == old(Caps()) && run == t - s + MaxRun(src, pat, p, ep, t)
        invariant Upward(src, pat, ep + 1, s, Caps(), t - s, run) == Upward(src, pat, ep + 1, s, Caps(), 0, run)
        decreases |src| - t
      {
        assert s + (t - s) == t;
        r := Match(t, ep + 1);
        if r != NullPointer { return; }
        RunHere(src, pat, p, ep, t);
        InBounds(src, pat, p, ep, t);
        var more := MatchHere(t, p, ep);
        if !more { return NullPointer; }
        t := t + 1;
      }
    }

    // ----- captures

    /** start_capture. */
    method StartCapture(s: nat, p: nat, what: int) returns (r: Pointer)
      requires Valid() && s <= |src| && p <= |pat|
      modifies this, capture
      ensures old(level) >= MAXCAPTURES ==> r == Raised && Valid()
      ensures old(level) < MAXCAPTURES ==>
              Agrees(r, First(src, pat, p, s, old(Caps()) + [Capture(s, what)]), old(Caps()))
      decreases |pat| - p, 2
    {
      hide First;
      if level >= MAXCAPTURES { return Raised; }
      capture[level] := Capture(s, what);
      level := level + 1;
      assert Caps() == old(Caps()) + [Capture(s, what)];
      r := Match(s, p);
      if r == NullPointer {
        assert capture[..level][..level - 1] == old(Caps());
        level := level - 1;
      }
    }

    /** capture_to_close. */
    method CaptureToClose() returns (l: Option<nat>)
      requires Valid()
      ensures l == ToClose(Caps())
    {
      var i := level;
      while i > 0
        invariant 0 <= i <= level && ToClose(capture[..i]) == ToClose(Caps())
      {
        i := i - 1;
        assert capture[..i + 1][..i] == capture[..i];
        if capture[i].len == CAP_UNFINISHED { return Some(i); }
      }
      return None;
    }

    /** end_capture. */
    method EndCapture(s: nat, p: nat) returns (r: Pointer)
      requires Valid() && s <= |src| && p <= |pat|
      modifies this, capture
      ensures match ToClose(old(Caps()))
              case None => r == Raised && Valid()
              case Some(l) => Agrees(r,
                              First(src, pat, p, s,
                                old(Caps())[l := old(Caps())[l].(len := s - old(Caps())[l].init)]), old(Caps()))
      decreases |pat| - p, 2
    {
      hide First;
      var c := CaptureToClose();
      if c.None? { return Raised; }
      var l := c.value;
      capture[l] := capture[l].(len := s - capture[l].init);
      assert Caps() == old(Caps())[l := old(Caps())[l].(len := s - old(Caps())[l].init)];
      r := Match(s, p);
      if r == NullPointer {
        assert capture[l] == capture[..level][l] && forall j :: 0 <= j < level ==> capture[..level][j] == capture[j];
        capture[l] := capture[l].(len := CAP_UNFINISHED);
        assert Caps() == old(Caps());
      }
    }

    /** match_capture. */
    method MatchCapture(s: nat, digit: char) returns (r: Pointer)
      requires Valid() && s <= |src|
      ensures r == match Referred(Caps(), digit)
                   case None => Raised
                   case Some(l) => match RefEnd(src, Caps()[l], s) case None => NullPointer case Some(t) => Into(t)
    {
      var l := digit as int - '1' as int;
      if l < 0 || l >= level || capture[l].len == CAP_UNFINISHED { return Raised; }
      var len, init := capture[l].len, capture[l].init;
      if len >= 0 && |src| - s >= len && init + len <= |src| && src[init..init + len] == src[s..s + len] {
        return Into(s + len);
      }
      return NullPointer;
    }

    // ----- the search

    /** What stepping over an item from s, p must leave behind. */
    ghost predicate Stepped(k: Step, s: nat, p: nat, caps: seq<Capture>)
      reads this, capture
    {
      match k
      case Stop(r) => Agrees(r, First(src, pat, p, s, caps), caps)
      case Go(s', p') =>
        && Valid() && Caps() == caps && s' <= |src| && p < p' <= |pat|
        && First(src, pat, p, s, caps) == First(src, pat, p', s', caps)
    }

    /** %b, %f and back references. */
    method Escape(s: nat, p: nat) returns (k: Step)
      requires Valid() && s <= |src| && p < |pat| && pat[p] == ESC && IsEscape(At(pat, p + 1))
      ensures Stepped(k, s, p, Caps())
    {
      hide First, SingleMatch, InSet, BalanceEnd, RefEnd, SetEnd;
      FirstIs(src, pat, p, s, Caps());
      var c := At(pat, p + 1);
      if c == 'b' {
        var r := MatchBalance(s, p + 2);
        if !r.Into? { return Stop(r); }
        BalanceBound(src, s, At(pat, p + 2), At(pat, p + 3));
        return Go(r.at, p + 4);
      } else if c == 'f' {
        if At(pat, p + 2) != '[' { return Stop(Raised); }
        var ep := EndOfClass(p + 2);
        if ep.None? { return Stop(Raised); }
        var previous := if s == 0 then NUL else At(src, s - 1);
        var before := MatchBracketClass(previous, p + 2, ep.value - 1);
        var after := MatchBracketClass(At(src, s), p + 2, ep.value - 1);
        if before || !after { return Stop(NullPointer); }
        return Go(s, ep.value);
      } else {
        var r := MatchCapture(s, c);
        if !r.Into? { return Stop(r); }
        RefBound(src, Caps(), c, s);
        return Go(r.at, p + 2);
      }
    }

    /** The default case: a class with its suffix. */
    method ClassItem(s: nat, p: nat) returns (k: Step)
      requires Valid() && s <= |src| && p < |pat| && Read(pat, p) == ReadClass(pat, p)
      modifies this, capture
      ensures Stepped(k, s, p, old(Caps()))
      decreases |pat| - p, 0
    {
      hide First, Here, MaxRun, SingleMatch, Read, SetEnd;
      FirstIs(src, pat, p, s, Caps());
      var end := EndOfClass(p);
      if end.None? { return Stop(Raised); }
      var ep := end.value;
      InBounds(src, pat, p, ep, s);
      var m := MatchHere(s, p, ep);
      var q := At(pat, ep);
      var r := NullPointer;
      if q == '?' {
        OptionalIs(src, pat, p, ep, s, Caps());
        if m {
          r := Match(s + 1, ep + 1);
          if r != NullPointer { return Stop(r); }
        }
        return Go(s, ep + 1);
      } else if q == '*' {
        StarIs(src, pat, p, ep, s, Caps());
        r := MaxExpand(s, p, ep);
      } else if q == '+' {
        PlusIs(src, pat, p, ep, s, Caps());
        if m { r := MaxExpand(s + 1, p, ep); }
      } else if q == '-' {
        MinusIs(src, pat, p, ep, s, Caps());
        r := MinExpand(s, p, ep);
      } else {
        OnceIs(src, pat, p, ep, s, Caps());
        if m { return Go(s + 1, ep); }
      }
      return Stop(r);
    }

    /** match: NULL, or the end of the first match in the order of preference. */
    method Match(s0: nat, p0: nat) returns (r: Pointer)
      requires Valid() && s0 <= |src| && p0 <= |pat|
      modifies this, capture
      ensures Agrees(r, First(src, pat, p0, s0, old(Caps())), old(Caps()))
      decreases |pat| - p0, 1
    {
      hide First, ReadClass, ToClose;
      var s: nat, p: nat := s0, p0;
      while true
        invariant s <= |src| && p0 <= p <= |pat| && Valid() && Caps() == old(Caps())
        invariant First(src, pat, p, s, Caps()) == First(src, pat, p0, s0, Caps())
        decreases |pat| - p
      {
        FirstIs(src, pat, p, s, Caps());
        var c := At(pat, p);
        if c == NUL { return Into(s); }
        var k;
        if c == '(' {
          if At(pat, p + 1) == ')' {
            r := StartCapture(s, p + 2, CAP_POSITION);
          } else {
            r := StartCapture(s, p + 1, CAP_UNFINISHED);
          }
          return;
        } else if c == ')' {
          r := EndCapture(s, p + 1);
          return;
        } else if c == '$' && At(pat, p + 1) == NUL {
          FirstIs(src, pat, p + 1, s, Caps());
          return if s == |src| then Into(s) else NullPointer;
        } else if c == ESC && IsEscape(At(pat, p + 1)) {
          k := Escape(s, p);
        } else {
          k := ClassItem(s, p);
        }
        if k.Stop? { return k.r; }
        s, p := k.s, k.p;
      }
    }

    /** str_find_aux: the leftmost match from init on, or at init only when anchored. */
    method FindFrom(init: nat, p: nat, anchor: bool) returns (r: Pointer, start: nat)
      requires Valid() && init <= |src| && p <= |pat|
      modifies this, capture
      ensures Valid() && init <= start <= |src| && (anchor ==> start == init)
      ensures forall t :: init <= t < start ==> First(src, pat, p, t, []).Null?
      ensures Agrees(r, First(src, pat, p, start, []), []) && (r == NullPointer && !anchor ==> start == |src|)
    {
      hide First;
      start := init;
      while true
        invariant Valid() && init <= start <= |src| && (anchor ==> start == init)
        invariant forall t :: init <= t < start ==> First(src, pat, p, t, []).Null?
        decreases |src| - start
      {
        level := 0;
        r := Match(start, p);
        if r != NullPointer || anchor || start >= |src| { return; }
        start := start + 1;
      }
    }
  }

  datatype Step = Stop(r: Pointer) | Go(s: nat, p: nat)

  predicate IsEscape(c: char) {
    c == 'b' || c == 'f' || IsDigit(c)
  }

  lemma RefBound(src: string, caps: seq<Capture>, digit: char, s: nat)
    ensures var l := Referred(caps, digit); l.Some? ==> var r := RefEnd(src, caps[l.value], s); r.Some? ==>
            s <= r.value <= |src|
  {
  }

  lemma InBounds(src: string, p: string, from: nat, to: nat, s: nat)
    ensures Here(src, p, from, to, s) ==> s < |src|
  {
  }

  lemma BalanceBound(src: string, s: nat, b: char, e: char)
    ensures var r := BalanceEnd(src, s, b, e); r.Some? ==> s < r.value <= |src|
  {
  }

  /** The search at an item that is not a class. */
  lemma FirstIs(src: string, p: string, i: nat, s: nat, caps: seq<Capture>)
    ensures match Read(p, i)
            case Bad => First(src, p, i, s, caps) == Fail
            case End => First(src, p, i, s, caps) == Found(s, caps)
            case Next(item, rest) =>
              item.Class? || First(src, p, i, s, caps) ==
                match Plain(src, p, item, s, caps)
                case Stuck => Null
                case Error => Fail
                case To(s', caps') => First(src, p, rest, s', caps')
  {
    hide Read, Plain;
  }
}
