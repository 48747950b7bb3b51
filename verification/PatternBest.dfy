/** The backtracking search, and that it finds the best match. */
module PatternBest {
  import opened Common
  import opened Pattern

  /** NULL, an error, or the end of the match with the captures. */
  datatype Result = Null | Fail | Found(e: nat, caps: seq<Capture>)

  /** How many characters from s on match the class. */
  function MaxRun(src: string, p: string, from: nat, to: nat, s: nat): nat
    decreases |src| - s
  {
    if s < |src| && SingleMatch(src[s], p, from, to) then 1 + MaxRun(src, p, from, to, s + 1) else 0
  }

  lemma {:induction false} RunIff(src: string, p: string, from: nat, to: nat, s: nat, n: nat)
    requires s <= |src|
    ensures Run(src, p, from, to, s, n) <==> n <= MaxRun(src, p, from, to, s)
    decreases n
  {
    if n > 0 {
      if s < |src| && SingleMatch(src[s], p, from, to) { RunIff(src, p, from, to, s + 1, n - 1); }
      assert Run(src, p, from, to, s, n) <==> s < |src| && SingleMatch(src[s], p, from, to)
                                              && Run(src, p, from, to, s + 1, n - 1);
    }
  }

  function Least(rep: Repeat): nat {
    if rep.Once? || rep.Plus? then 1 else 0
  }

  function Most(rep: Repeat, run: nat): nat {
    if (rep.Once? || rep.Optional?) && run > 1 then 1 else run
  }

  /** match: the choices are tried in order, the first that leads to a match is kept. */
  ghost function First(src: string, p: string, i: nat, s: nat, caps: seq<Capture>): Result
    decreases |p| - i, 0, 0
  {
    match Read(p, i)
    case Bad => Fail
    case End => Found(s, caps)
    case Next(item, rest) =>
      match item
      case Class(from, to, rep) =>
        var run := MaxRun(src, p, from, to, s);
        if rep.Minus? then Upward(src, p, rest, s, caps, 0, run)
        else if Most(rep, run) < Least(rep) then Null
        else Downward(src, p, rest, s, caps, Most(rep, run), Least(rep))
      case _ =>
        match Plain(src, p, item, s, caps)
        case Stuck => Null
        case Error => Fail
        case To(s', caps') => First(src, p, rest, s', caps')
  }

  /** max_expand: n, n - 1, ..., lo repetitions. */
  ghost function Downward(src: string, p: string, rest: nat, s: nat, caps: seq<Capture>, n: nat, lo: nat): Result
    requires lo <= n
    decreases |p| - rest, 1, n
  {
    var r := First(src, p, rest, s + n, caps);
    if !r.Null? || n == lo then r else Downward(src, p, rest, s, caps, n - 1, lo)
  }

  /** min_expand: n, n + 1, ..., hi repetitions. */
  ghost function Upward(src: string, p: string, rest: nat, s: nat, caps: seq<Capture>, n: nat, hi: nat): Result
    requires n <= hi
    decreases |p| - rest, 1, hi - n
  {
    var r := First(src, p, rest, s + n, caps);
    if !r.Null? || n == hi then r else Upward(src, p, rest, s, caps, n + 1, hi)
  }

  // ----- well formed patterns know no errors

  /** lens tells which captures are open. */
  ghost predicate Known(caps: seq<Capture>, lens: seq<int>, s: nat) {
    |caps| == |lens| && forall j :: 0 <= j < |caps| ==>
      caps[j].init <= s && (caps[j].len == CAP_UNFINISHED <==> lens[j] == CAP_UNFINISHED)
  }

  lemma {:induction false} ClosedKnown(caps: seq<Capture>, lens: seq<int>, s: nat)
    requires Known(caps, lens, s) && CAP_UNFINISHED in lens
    ensures ToClose(caps).Some? && var l := ToClose(caps).value;
            Known(caps[l := caps[l].(len := s - caps[l].init)], Closed(lens), s)
    decreases |caps|
  {
    var n := |caps| - 1;
    if lens[n] != CAP_UNFINISHED {
      assert lens == lens[..n] + [lens[n]];
      ClosedKnown(caps[..n], lens[..n], s);
    }
  }

  lemma PlainKnown(src: string, p: string, i: nat, s: nat, caps: seq<Capture>, lens: seq<int>) returns (lens': seq<int>)
    requires s <= |src| && WellFormed(p, i, lens) && Known(caps, lens, s) && Read(p, i).Next? && !Read(p, i).item.Class?
    ensures var m := Plain(src, p, Read(p, i).item, s, caps);
            !m.Error? && (m.To? ==> s <= m.s <= |src| && Known(m.caps, lens', m.s)
                                    && WellFormed(p, Read(p, i).rest, lens'))
  {
    var item := Read(p, i).item;
    lens' := lens;
    match item
    case Open => lens' := lens + [CAP_UNFINISHED];
    case Position => lens' := lens + [CAP_POSITION];
    case Close =>
      ClosedKnown(caps, lens, s);
      lens' := Closed(lens);
    case _ =>
  }

  // ----- the first match found is the best one

  ghost predicate Best(src: string, p: string, i: nat, s: nat, caps: seq<Capture>, r: Result, ch: seq<nat>) {
    match r
    case Fail => false
    case Null => forall d :: Play(src, p, i, d, s, caps).None?
    case Found(e, c) =>
      && Play(src, p, i, ch, s, caps) == Some((e, c))
      && (forall d :: Play(src, p, i, d, s, caps).Some? ==> d == ch || Better(p, i, ch, d))
  }

  predicate Within(d: seq<nat>, lo: nat, hi: nat) {
    d != [] && lo <= d[0] <= hi
  }

  /** The same among the choices that begin with lo to hi repetitions. */
  ghost predicate BestIn(src: string, p: string, i: nat, s: nat, caps: seq<Capture>, r: Result, ch: seq<nat>, lo: nat,
                         hi: nat) {
    match r
    case Fail => false
    case Null => forall d :: Within(d, lo, hi) ==> Play(src, p, i, d, s, caps).None?
    case Found(e, c) =>
      && Within(ch, lo, hi) && Play(src, p, i, ch, s, caps) == Some((e, c))
      && (forall d :: Within(d, lo, hi) && Play(src, p, i, d, s, caps).Some? ==> d == ch || Better(p, i, ch, d))
  }

  /** One number of repetitions. */
  lemma OneCount(src: string, p: string, i: nat, s: nat, caps: seq<Capture>, n: nat, r: Result, ch: seq<nat>)
    requires Read(p, i).Next?
    requires var item := Read(p, i).item; item.Class? && Allowed(item.rep, n) && Run(src, p, item.from, item.to, s, n)
    requires Best(src, p, Read(p, i).rest, s + n, caps, r, ch)
    ensures BestIn(src, p, i, s, caps, r, [n] + ch, n, n)
  {
    hide Run, Allowed, Read, Better;
    var rest := Read(p, i).rest;
    forall d | Within(d, n, n) ensures Play(src, p, i, d, s, caps) == Play(src, p, rest, d[1..], s + n, caps) {}
    if r.Found? {
      assert ([n] + ch)[1..] == ch;
      forall d | Within(d, n, n) && Play(src, p, i, d, s, caps).Some?
        ensures d == [n] + ch || Better(p, i, [n] + ch, d)
      {
        assert d == [n] + d[1..];
        if d[1..] != ch { BetterCons(p, i, n, ch, d); }
      }
    }
  }

  lemma BetterCons(p: string, i: nat, n: nat, ch: seq<nat>, d: seq<nat>)
    requires Read(p, i).Next? && d != [] && d[0] == n && Better(p, Read(p, i).rest, ch, d[1..])
    ensures Better(p, i, [n] + ch, d)
  {
    assert ([n] + ch)[1..] == ch;
  }

  /** A count that was tried earlier beats those tried later; one without a match adds nothing. */
  lemma Combine(src: string, p: string, i: nat, s: nat, caps: seq<Capture>, n: nat, r: Result, ch: seq<nat>,
                lo: nat, hi: nat, r': Result, ch': seq<nat>, lo': nat, hi': nat)
    requires Read(p, i).Next? && Read(p, i).item.Class? && BestIn(src, p, i, s, caps, r, ch, n, n)
    requires r.Null? ==> BestIn(src, p, i, s, caps, r', ch', lo, hi)
    requires forall m :: lo <= m <= hi ==> Before(Read(p, i).item, n, m)
    requires lo' <= n <= hi'
    requires (lo' == lo && hi' == n && hi == n - 1) || (lo' == n && lo == n + 1 && hi' == hi)
    ensures if r.Null? then BestIn(src, p, i, s, caps, r', ch', lo', hi')
                       else BestIn(src, p, i, s, caps, r, ch, lo', hi')
  {
    hide Play, Read, Before;
    forall d ensures Within(d, lo', hi') <==> Within(d, n, n) || Within(d, lo, hi) {}
    if r.Found? {
      forall d | Within(d, lo', hi') && Play(src, p, i, d, s, caps).Some? ensures d == ch || Better(p, i, ch, d) {}
    }
  }

  lemma {:induction false} DownwardBest(src: string, p: string, i: nat, s: nat, caps: seq<Capture>, lens: seq<int>,
                                        n: nat, lo: nat) returns (ch: seq<nat>)
    requires s <= |src| && WellFormed(p, i, lens) && Known(caps, lens, s) && Read(p, i).Next? && lo <= n
    requires var item := Read(p, i).item; item.Class? && !item.rep.Minus? && n == Most(item.rep, n)
                                          && lo >= Least(item.rep)
    requires var item := Read(p, i).item; n <= MaxRun(src, p, item.from, item.to, s)
    ensures BestIn(src, p, i, s, caps, Downward(src, p, Read(p, i).rest, s, caps, n, lo), ch, lo, n)
    decreases |p| - Read(p, i).rest, 1, n
  {
    hide BestIn, Best, Play, Better, Run;
    var item, rest := Read(p, i).item, Read(p, i).rest;
    RunIff(src, p, item.from, item.to, s, n);
    RunEnds(src, p, item.from, item.to, s, n);
    var r := First(src, p, rest, s + n, caps);
    var c := FirstBest(src, p, rest, s + n, caps, lens);
    OneCount(src, p, i, s, caps, n, r, c);
    ch := [n] + c;
    if n > lo {
      if r.Null? {
        ch := DownwardBest(src, p, i, s, caps, lens, n - 1, lo);
        Combine(src, p, i, s, caps, n, r, [n] + c, lo, n - 1, Downward(src, p, rest, s, caps, n - 1, lo), ch, lo, n);
      } else {
        Combine(src, p, i, s, caps, n, r, [n] + c, lo, n - 1, Null, [], lo, n);
      }
    }
  }

  lemma {:induction false} UpwardBest(src: string, p: string, i: nat, s: nat, caps: seq<Capture>, lens: seq<int>,
                                      n: nat, hi: nat) returns (ch: seq<nat>)
    requires s <= |src| && WellFormed(p, i, lens) && Known(caps, lens, s) && Read(p, i).Next? && n <= hi
    requires var item := Read(p, i).item; item.Class? && item.rep.Minus? && hi <= MaxRun(src, p, item.from, item.to, s)
    ensures BestIn(src, p, i, s, caps, Upward(src, p, Read(p, i).rest, s, caps, n, hi), ch, n, hi)
    decreases |p| - Read(p, i).rest, 1, hi - n
  {
    hide BestIn, Best, Play, Better, Run;
    var item, rest := Read(p, i).item, Read(p, i).rest;
    RunIff(src, p, item.from, item.to, s, n);
    RunEnds(src, p, item.from, item.to, s, n);
    var r := First(src, p, rest, s + n, caps);
    var c := FirstBest(src, p, rest, s + n, caps, lens);
    OneCount(src, p, i, s, caps, n, r, c);
    ch := [n] + c;
    if n < hi {
      if r.Null? {
        ch := UpwardBest(src, p, i, s, caps, lens, n + 1, hi);
        Combine(src, p, i, s, caps, n, r, [n] + c, n + 1, hi, Upward(src, p, rest, s, caps, n + 1, hi), ch, n, hi);
      } else {
        Combine(src, p, i, s, caps, n, r, [n] + c, n + 1, hi, Null, [], n, hi);
      }
    }
  }

  lemma RunEnds(src: string, p: string, from: nat, to: nat, s: nat, n: nat)
    requires Run(src, p, from, to, s, n)
    ensures s + n <= |src|
  {
  }

  /** Choices outside the range that was tried lead nowhere. */
  lemma ClassBest(src: string, p: string, i: nat, s: nat, caps: seq<Capture>, r: Result, ch: seq<nat>, lo: nat, hi: nat)
    requires s <= |src| && Read(p, i).Next? && Read(p, i).item.Class? && BestIn(src, p, i, s, caps, r, ch, lo, hi)
    requires var item := Read(p, i).item;
             forall n: nat :: Allowed(item.rep, n) && n <= MaxRun(src, p, item.from, item.to, s) ==> lo <= n <= hi
    ensures Best(src, p, i, s, caps, r, ch)
  {
    hide Run, Allowed, Better, MaxRun;
    var item := Read(p, i).item;
    forall d | Play(src, p, i, d, s, caps).Some? ensures Within(d, lo, hi) {
      RunIff(src, p, item.from, item.to, s, d[0]);
    }
  }

  lemma NoCount(src: string, p: string, i: nat, s: nat, caps: seq<Capture>)
    requires s <= |src| && Read(p, i).Next? && Read(p, i).item.Class?
    requires var item := Read(p, i).item; Most(item.rep, MaxRun(src, p, item.from, item.to, s)) < Least(item.rep)
    ensures Best(src, p, i, s, caps, Null, [])
  {
    hide Run;
    var item := Read(p, i).item;
    forall d ensures Play(src, p, i, d, s, caps).None? {
      if d != [] { RunIff(src, p, item.from, item.to, s, d[0]); }
    }
  }

  /** Items without a choice. */
  lemma PlainBest(src: string, p: string, i: nat, s: nat, caps: seq<Capture>, r: Result, ch: seq<nat>)
    requires Read(p, i).Next? && !Read(p, i).item.Class?
    requires match Plain(src, p, Read(p, i).item, s, caps)
             case To(s', caps') => Best(src, p, Read(p, i).rest, s', caps', r, ch)
             case Stuck => r.Null?
             case Error => false
    ensures Best(src, p, i, s, caps, r, [0] + ch)
  {
    hide Plain, Read, Better;
    var item, rest := Read(p, i).item, Read(p, i).rest;
    forall d ensures Play(src, p, i, d, s, caps) ==
      match Plain(src, p, item, s, caps)
      case To(s', caps') => if d != [] && d[0] == 0 then Play(src, p, rest, d[1..], s', caps') else None
      case _ => None
    {}
    if r.Found? {
      assert ([0] + ch)[1..] == ch;
      forall d | Play(src, p, i, d, s, caps).Some? ensures d == [0] + ch || Better(p, i, [0] + ch, d) {
        assert d == [0] + d[1..];
        if d[1..] != ch { BetterCons(p, i, 0, ch, d); }
      }
    }
  }

  lemma EndBest(src: string, p: string, i: nat, s: nat, caps: seq<Capture>)
    requires Read(p, i).End?
    ensures Best(src, p, i, s, caps, Found(s, caps), [])
  {
  }

  /** For a well formed pattern the search ends without error, and what it returns is the
      match with the best choices, or NULL if no choices lead to a match. */
  lemma {:induction false} FirstBest(src: string, p: string, i: nat, s: nat, caps: seq<Capture>, lens: seq<int>)
    returns (ch: seq<nat>)
    requires s <= |src| && WellFormed(p, i, lens) && Known(caps, lens, s)
    ensures Best(src, p, i, s, caps, First(src, p, i, s, caps), ch)
    decreases |p| - i, 0, 0
  {
    hide Best, BestIn, Play, Better, Plain, MaxRun;
    match Read(p, i) {
      case End =>
        EndBest(src, p, i, s, caps);
        ch := [];
      case Next(item, rest) =>
        if item.Class? {
          var run := MaxRun(src, p, item.from, item.to, s);
          if item.rep.Minus? {
            ch := UpwardBest(src, p, i, s, caps, lens, 0, run);
            ClassBest(src, p, i, s, caps, Upward(src, p, rest, s, caps, 0, run), ch, 0, run);
          } else if Most(item.rep, run) < Least(item.rep) {
            NoCount(src, p, i, s, caps);
            ch := [];
          } else {
            var hi, lo := Most(item.rep, run), Least(item.rep);
            ch := DownwardBest(src, p, i, s, caps, lens, hi, lo);
            ClassBest(src, p, i, s, caps, Downward(src, p, rest, s, caps, hi, lo), ch, lo, hi);
          }
        } else {
          var lens' := PlainKnown(src, p, i, s, caps, lens);
          var m := Plain(src, p, item, s, caps);
          ch := [];
          if m.To? { ch := FirstBest(src, p, rest, m.s, m.caps, lens'); }
          PlainBest(src, p, i, s, caps, First(src, p, i, s, caps), ch);
          ch := [0] + ch;
        }
    }
  }

  /** No choices come before themselves, and of two choices at most one comes first: the best
      match is unique. */
  lemma {:induction false} BetterOneWay(p: string, i: nat, c: seq<nat>, d: seq<nat>)
    requires Better(p, i, c, d)
    ensures c != d && !Better(p, i, d, c)
    decreases |c|
  {
    var item, rest := Read(p, i).item, Read(p, i).rest;
    if !Before(item, c[0], d[0]) { BetterOneWay(p, rest, c[1..], d[1..]); }
  }
}
