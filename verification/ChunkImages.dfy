/** The format of precompiled chunks as a relation between bytes and functions, and that the
    loader accepts exactly the bytes that stand for a function in this format. */
module ChunkImages {
  import opened Common
  import opened Chunk
  import opened ChunkLoaded

  // ----- what bytes stand for what

  /** A string is followed by one byte, which is not looked at. */
  ghost predicate IsName(c: Bytes, s: Name) {
    match s
    case None => c == Word(0)
    case Some(cs) => |cs| + 1 < WORD && exists z: byte :: c == Word(|cs| + 1) + (cs + [z])
  }

  /** Any byte but 0 is true; a string constant may be missing. */
  ghost predicate IsConstant(c: Bytes, k: Constant) {
    match k
    case Nil => c == [0]
    case Boolean(b) => exists x: byte :: c == [1, x] && (b <==> x != 0)
    case Number(image) => |image| == 8 && c == [3] + image
    case String(s) => (s == [] && c == [4] + Word(0)) || exists n :: IsName(n, Some(s)) && c == [4] + n
  }

  ghost predicate IsLocVar(c: Bytes, v: LocVar) {
    exists n :: IsName(n, v.varname) && c == n + (Word(v.startpc) + Word(v.endpc))
  }

  predicate IsWord(c: Bytes, x: word) {
    c == Word(x)
  }

  ghost predicate IsMany<T>(c: Bytes, xs: seq<T>, image: (Bytes, T) -> bool)
    decreases |xs|
  {
    if xs == [] then c == []
    else exists a, d :: image(a, xs[0]) && IsMany(d, xs[1..], image) && c == a + d
  }

  ghost predicate IsList<T>(c: Bytes, xs: seq<T>, image: (Bytes, T) -> bool) {
    |xs| < INT_LIMIT && exists d :: IsMany(d, xs, image) && c == Word(|xs|) + d
  }

  ghost predicate IsFixed(c: Bytes, x: Fixed) {
    c == Word(x.linedefined) + (Word(x.lastlinedefined) + [x.nups, x.numparams, x.is_vararg, x.maxstacksize])
  }

  /** parent is the source of a function that has none of its own. */
  ghost predicate IsHead(c: Bytes, h: Head, parent: Name) {
    exists s: Name, n, x, code, k ::
      && IsName(n, s) && h.source == (if s.None? then parent else s)
      && IsFixed(x, h.fixed) && IsList(code, h.code, IsWord) && IsList(k, h.k, IsConstant)
      && c == n + (x + (code + k))
  }

  ghost predicate IsDebug(c: Bytes, d: Debug) {
    exists lines, vars, ups ::
      && IsList(lines, d.lineinfo, IsWord) && IsList(vars, d.locvars, IsLocVar) && IsList(ups, d.upvalues, IsName)
      && c == lines + (vars + ups)
  }

  function HeadOf(f: Proto): Head {
    Head(f.source, Fixed(f.linedefined, f.lastlinedefined, f.nups, f.numparams, f.is_vararg, f.maxstacksize),
         f.code, f.k)
  }

  function DebugOf(f: Proto): Debug {
    Debug(f.lineinfo, f.locvars, f.upvalues)
  }

  ghost predicate IsFunction(c: Bytes, f: Proto, parent: Name)
    decreases f, 1
  {
    exists h, ps, d ::
      && IsHead(h, HeadOf(f), parent) && IsFunctions(ps, f.p, f.source) && IsDebug(d, DebugOf(f))
      && |f.p| < INT_LIMIT && c == h + (Word(|f.p|) + (ps + d))
  }

  ghost predicate IsFunctions(c: Bytes, fs: seq<Proto>, parent: Name)
    decreases fs, 0
  {
    if fs == [] then c == []
    else exists a, d :: IsFunction(a, fs[0], parent) && IsFunctions(d, fs[1..], parent) && c == a + d
  }

  // ----- what is loaded stands in the bytes

  /** The bytes begin with an image of what was loaded. */
  ghost predicate Stands<T(!new)>(b: Bytes, l: Load<T>, image: (Bytes, T) -> bool) {
    l.Got? ==> exists c :: image(c, l.value) && b == c + l.rest
  }

  lemma WordStands(b: Bytes)
    ensures Stands(b, LoadWord(b), IsWord)
    ensures LoadInt(b).Got? ==> LoadWord(b).Got? && LoadInt(b).value == LoadWord(b).value
                                && LoadInt(b).rest == LoadWord(b).rest
  {
    if |b| >= 4 {
      var x := WordOf(b[..4]);
      DigitsBack(b[..4]);
      assert IsWord(b[..4], x) && b == b[..4] + b[4..];
    }
  }

  lemma DigitsBack(b: Bytes)
    requires |b| == 4
    ensures Word(WordOf(b)) == b
  {
    var x := WordOf(b);
    var y := b[1] as int + 256 * b[2] as int + 0x1_0000 * b[3] as int;
    var z := b[2] as int + 256 * b[3] as int;
    assert x == b[0] as int + 256 * y && y == b[1] as int + 256 * z;
    assert x / 256 == y && x % 256 == b[0] as int;
    assert y / 256 == z && y % 256 == b[1] as int;
    assert z / 256 == b[3] as int && z % 256 == b[2] as int;
    assert x / 0x1_0000 == z && x / 0x100_0000 == z / 256;
  }

  lemma NameStands(b: Bytes)
    ensures Stands(b, LoadName(b), IsName)
  {
    hide Word;
    WordStands(b);
    var l := LoadWord(b);
    if l.Got? {
      var n, r := l.value, l.rest;
      assert b == Word(n) + r;
      if n == 0 {
        assert IsName(Word(0), None);
      } else if n <= |r| {
        var s := r[..n];
        assert s == s[..n - 1] + [s[n - 1]] && r == s + r[n..];
        assert |s[..n - 1]| + 1 == n;
        assert IsName(Word(n) + s, Some(s[..n - 1]));
        assert b == Word(n) + s + r[n..];
      }
    }
  }

  lemma ConstantStands(b: Bytes)
    ensures Stands(b, LoadConstant(b), IsConstant)
  {
    hide LoadName, IsName, Word;
    if b != [] {
      var t, r := b[0], b[1..];
      assert b == [t] + r;
      if t == LUA_TNIL {
        assert IsConstant([0], Nil) && b == [0] + r;
      } else if t == LUA_TBOOLEAN && r != [] {
        assert IsConstant([1, r[0]], Boolean(r[0] != 0)) && b == [1, r[0]] + r[1..];
      } else if t == LUA_TNUMBER && |r| >= 8 {
        assert IsConstant([3] + r[..8], Number(r[..8])) && b == [3] + r[..8] + r[8..];
      } else if t == LUA_TSTRING {
        NameStands(r);
        var l := LoadName(r);
        if l.Got? {
          var n :| IsName(n, l.value) && r == n + l.rest;
          assert b == [4] + n + l.rest;
          assert l.value.None? ==> n == Word(0) by { NoneImage(n, l.value); }
          assert IsConstant([4] + n, String(if l.value.Some? then l.value.value else []));
        }
      }
    }
  }

  lemma NoneImage(n: Bytes, s: Name)
    requires IsName(n, s)
    ensures s.None? ==> n == Word(0)
  {
  }

  lemma LocVarStands(b: Bytes)
    ensures Stands(b, LoadLocVar(b), IsLocVar)
  {
    hide LoadName, IsName, Word, LoadInt;
    NameStands(b);
    var l := LoadName(b);
    if l.Got? {
      var n :| IsName(n, l.value) && b == n + l.rest;
      IntStands(l.rest);
      var i := LoadInt(l.rest);
      if i.Got? {
        IntStands(i.rest);
        var j := LoadInt(i.rest);
        if j.Got? {
          assert IsLocVar(n + (Word(i.value) + Word(j.value)), LocVar(l.value, i.value, j.value));
          assert b == n + (Word(i.value) + Word(j.value)) + j.rest;
        }
      }
    }
  }

  lemma IntStands(b: Bytes)
    ensures var l := LoadInt(b); l.Got? ==> b == Word(l.value) + l.rest
  {
    hide Word, LoadWord;
    WordStands(b);
  }

  lemma FirstOfMany<T>(a: Bytes, x: T, d: Bytes, xs: seq<T>, image: (Bytes, T) -> bool)
    requires image(a, x) && IsMany(d, xs, image)
    ensures IsMany(a + d, [x] + xs, image)
  {
    assert ([x] + xs)[1..] == xs;
  }

  lemma {:induction false} ManyStands<T(!new)>(b: Bytes, n: nat, load: Bytes -> Load<T>, image: (Bytes, T) -> bool)
    requires forall e :: Stands(e, load(e), image)
    ensures var l := LoadMany(b, n, load);
            l.Got? ==> |l.value| == n && exists c :: IsMany(c, l.value, image) && b == c + l.rest
    decreases n
  {
    if n == 0 {
      assert IsMany([], LoadMany(b, n, load).value, image) && b == [] + b;
    } else {
      assert Stands(b, load(b), image);
      var l := load(b);
      if l.Got? {
        var a :| image(a, l.value) && b == a + l.rest;
        ManyStands(l.rest, n - 1, load, image);
        var m := LoadMany(l.rest, n - 1, load);
        if m.Got? {
          var d :| IsMany(d, m.value, image) && l.rest == d + m.rest;
          FirstOfMany(a, l.value, d, m.value, image);
          assert b == a + d + m.rest;
        }
      }
    }
  }

  /** The image of a list that was loaded. */
  lemma ListStands<T(!new)>(b: Bytes, load: Bytes -> Load<T>, image: (Bytes, T) -> bool) returns (c: Bytes)
    requires forall e :: Stands(e, load(e), image)
    ensures var l := LoadList(b, load); l.Got? ==> IsList(c, l.value, image) && b == c + l.rest
  {
    hide Word, LoadInt, LoadMany, IsMany;
    c := [];
    IntStands(b);
    var i := LoadInt(b);
    if i.Got? {
      ManyStands(i.rest, i.value, load, image);
      var l := LoadMany(i.rest, i.value, load);
      if l.Got? {
        var d :| IsMany(d, l.value, image) && i.rest == d + l.rest;
        c := Word(i.value) + d;
        assert b == Word(i.value) + d + l.rest;
      }
    }
  }

  lemma FixedStands(b: Bytes) returns (c: Bytes)
    ensures var l := LoadFixed(b); l.Got? ==> IsFixed(c, l.value) && b == c + l.rest
  {
    hide Word, LoadInt;
    c := [];
    IntStands(b);
    var i := LoadInt(b);
    if i.Got? {
      IntStands(i.rest);
      var j := LoadInt(i.rest);
      if j.Got? && |j.rest| >= 4 {
        var q := j.rest[..4];
        assert q == [q[0], q[1], q[2], q[3]] && j.rest == q + j.rest[4..];
        c := Word(i.value) + (Word(j.value) + q);
        assert b == c + j.rest[4..];
      }
    }
  }

  lemma HeadStands(b: Bytes, parent: Name) returns (c: Bytes)
    ensures var l := LoadHead(b, parent); l.Got? ==> IsHead(c, l.value, parent) && b == c + l.rest
  {
    hide LoadName, IsName, LoadFixed, IsFixed, LoadList, IsList, LoadWord, IsWord, LoadConstant, IsConstant, Word;
    c := [];
    NameStands(b);
    var l := LoadName(b);
    if l.Got? {
      var n :| IsName(n, l.value) && b == n + l.rest;
      var x := FixedStands(l.rest);
      var f := LoadFixed(l.rest);
      if f.Got? {
        forall e ensures Stands(e, LoadWord(e), IsWord) { WordStands(e); }
        var code := ListStands(f.rest, LoadWord, IsWord);
        var w := LoadList(f.rest, LoadWord);
        if w.Got? {
          forall e ensures Stands(e, LoadConstant(e), IsConstant) { ConstantStands(e); }
          var k := ListStands(w.rest, LoadConstant, IsConstant);
          var ks := LoadList(w.rest, LoadConstant);
          if ks.Got? {
            c := n + (x + (code + k));
            assert b == c + ks.rest;
            assert IsHead(c, LoadHead(b, parent).value, parent);
          }
        }
      }
    }
  }

  lemma DebugStands(b: Bytes) returns (c: Bytes)
    ensures var l := LoadDebug(b); l.Got? ==> IsDebug(c, l.value) && b == c + l.rest
  {
    hide LoadName, IsName, LoadList, IsList, LoadWord, IsWord, LoadLocVar, IsLocVar;
    c := [];
    forall e ensures Stands(e, LoadWord(e), IsWord) { WordStands(e); }
    var lines := ListStands(b, LoadWord, IsWord);
    var l := LoadList(b, LoadWord);
    if l.Got? {
      forall e ensures Stands(e, LoadLocVar(e), IsLocVar) { LocVarStands(e); }
      var vars := ListStands(l.rest, LoadLocVar, IsLocVar);
      var v := LoadList(l.rest, LoadLocVar);
      if v.Got? {
        forall e ensures Stands(e, LoadName(e), IsName) { NameStands(e); }
        var ups := ListStands(v.rest, LoadName, IsName);
        var u := LoadList(v.rest, LoadName);
        if u.Got? {
          c := lines + (vars + ups);
          assert b == c + u.rest;
          assert IsDebug(c, LoadDebug(b).value);
        }
      }
    }
  }

  lemma Joined(f: Proto, parent: Name, h: Bytes, ps: Bytes, d: Bytes)
    requires IsHead(h, HeadOf(f), parent) && IsFunctions(ps, f.p, f.source) && IsDebug(d, DebugOf(f))
    requires |f.p| < INT_LIMIT
    ensures IsFunction(h + (Word(|f.p|) + (ps + d)), f, parent)
  {
    hide IsHead, IsDebug, IsFunctions, Word;
  }

  lemma {:induction false} FunctionStands(b: Bytes, parent: Name, calls: nat, check: Check) returns (c: Bytes)
    ensures var l := LoadFunction(b, parent, calls, check); l.Got? ==> IsFunction(c, l.value, parent) && b == c + l.rest
    decreases Left(calls), 0
  {
    hide LoadHead, LoadInt, LoadDebug, Word, LoadProtos, IsHead, IsDebug, IsFunctions, IsFunction;
    c := [];
    var h := HeadStands(b, parent);
    var l := LoadHead(b, parent);
    if calls < LUAI_MAXCCALLS && l.Got? {
      IntStands(l.rest);
      var i := LoadInt(l.rest);
      if i.Got? {
        var ps := FunctionsStand(i.rest, i.value, l.value.source, calls + 1, check);
        var p := LoadProtos(i.rest, i.value, l.value.source, calls + 1, check);
        if p.Got? {
          var d := DebugStands(p.rest);
          var e := LoadDebug(p.rest);
          if e.Got? {
            var f := Build(l.value.source, l.value.fixed, l.value.code, l.value.k, p.value, e.value);
            Joined(f, parent, h, ps, d);
            c := h + (Word(|f.p|) + (ps + d));
            assert b == c + e.rest;
          }
        }
      }
    }
  }

  lemma {:induction false} FunctionsStand(b: Bytes, n: nat, parent: Name, calls: nat, check: Check)
    returns (c: Bytes)
    ensures var l := LoadProtos(b, n, parent, calls, check);
            l.Got? ==> |l.value| == n && IsFunctions(c, l.value, parent) && b == c + l.rest
    decreases Left(calls), n + 1
  {
    hide LoadFunction, IsFunction;
    c := [];
    if n > 0 {
      var a := FunctionStands(b, parent, calls, check);
      var l := LoadFunction(b, parent, calls, check);
      if l.Got? {
        var d := FunctionsStand(l.rest, n - 1, parent, calls, check);
        var m := LoadProtos(l.rest, n - 1, parent, calls, check);
        if m.Got? {
          assert ([l.value] + m.value)[1..] == m.value;
          c := a + d;
          assert b == c + m.rest;
        }
      }
    } else {
      assert b == [] + b;
    }
  }

  // ----- whatever stands in the bytes is loaded

  lemma NameLoads(c: Bytes, s: Name, r: Bytes)
    requires IsName(c, s)
    ensures LoadName(c + r) == Got(s, r)
  {
    hide Word, LoadWord;
    match s
    case None => WordRoundTrip(0, r);
    case Some(cs) =>
      var z: byte :| c == Word(|cs| + 1) + (cs + [z]);
      var body := cs + [z];
      assert c + r == Word(|body|) + (body + r);
      WordRoundTrip(|body|, body + r);
      assert (body + r)[..|body|] == body && (body + r)[|body|..] == r && body[..|cs|] == cs;
  }

  lemma ConstantLoads(c: Bytes, k: Constant, r: Bytes)
    requires IsConstant(c, k)
    ensures LoadConstant(c + r) == Got(k, r)
  {
    hide LoadName, IsName, Word;
    var b := c + r;
    match k
    case Nil => assert b[1..] == r;
    case Boolean(v) =>
      var x: byte :| c == [1, x] && (v <==> x != 0);
      assert b[1..] == [x] + r && b[1..][1..] == r;
    case Number(image) => assert b[1..] == image + r && (image + r)[..8] == image && (image + r)[8..] == r;
    case String(s) =>
      if s == [] && c == [4] + Word(0) {
        assert b[1..] == Word(0) + r;
        NoName(r);
      } else {
        var n :| IsName(n, Some(s)) && c == [4] + n;
        assert b[1..] == n + r;
        NameLoads(n, Some(s), r);
      }
  }

  lemma NoName(r: Bytes)
    ensures LoadName(Word(0) + r) == Got(None, r)
  {
    NameLoads(Word(0), None, r);
  }

  lemma LocVarLoads(c: Bytes, v: LocVar, r: Bytes)
    requires IsLocVar(c, v)
    ensures LoadLocVar(c + r) == Got(v, r)
  {
    hide LoadName, IsName, Word, LoadInt;
    var n :| IsName(n, v.varname) && c == n + (Word(v.startpc) + Word(v.endpc));
    var r2 := Word(v.endpc) + r;
    var r1 := Word(v.startpc) + r2;
    assert c + r == n + r1;
    NameLoads(n, v.varname, r1);
    WordRoundTrip(v.startpc, r2);
    WordRoundTrip(v.endpc, r);
  }

  lemma {:induction false} ManyLoads<T>(c: Bytes, xs: seq<T>, load: Bytes -> Load<T>, image: (Bytes, T) -> bool,
                                        r: Bytes)
    requires IsMany(c, xs, image) && forall a, x, t :: image(a, x) ==> load(a + t) == Got(x, t)
    ensures LoadMany(c + r, |xs|, load) == Got(xs, r)
    decreases |xs|
  {
    if xs == [] {
      assert c + r == r;
    } else {
      var a, d :| image(a, xs[0]) && IsMany(d, xs[1..], image) && c == a + d;
      assert c + r == a + (d + r);
      ManyLoads(d, xs[1..], load, image, r);
      assert [xs[0]] + xs[1..] == xs;
    }
  }

  lemma ListLoads<T>(c: Bytes, xs: seq<T>, load: Bytes -> Load<T>, image: (Bytes, T) -> bool, r: Bytes)
    requires IsList(c, xs, image) && forall a, x, t :: image(a, x) ==> load(a + t) == Got(x, t)
    ensures LoadList(c + r, load) == Got(xs, r)
  {
    hide Word, LoadInt, LoadMany, IsMany;
    var d :| IsMany(d, xs, image) && c == Word(|xs|) + d;
    assert c + r == Word(|xs|) + (d + r);
    WordRoundTrip(|xs|, d + r);
    ManyLoads(d, xs, load, image, r);
  }

  lemma WordsLoad(c: Bytes, xs: seq<word>, r: Bytes)
    requires IsList(c, xs, IsWord)
    ensures LoadList(c + r, LoadWord) == Got(xs, r)
  {
    hide LoadList, IsList, LoadWord, Word;
    forall a, x: word, t | IsWord(a, x) ensures LoadWord(a + t) == Got(x, t) { WordRoundTrip(x, t); }
    ListLoads(c, xs, LoadWord, IsWord, r);
  }

  lemma FixedLoads(c: Bytes, x: Fixed, r: Bytes)
    requires IsFixed(c, x)
    ensures LoadFixed(c + r) == Got(x, r)
  {
    hide Word, LoadInt;
    var q := [x.nups, x.numparams, x.is_vararg, x.maxstacksize];
    var r1 := Word(x.lastlinedefined) + (q + r);
    assert c + r == Word(x.linedefined) + r1;
    WordRoundTrip(x.linedefined, r1);
    WordRoundTrip(x.lastlinedefined, q + r);
    assert (q + r)[..4] == q && (q + r)[4..] == r;
  }

  lemma HeadLoads(c: Bytes, h: Head, parent: Name, r: Bytes)
    requires IsHead(c, h, parent)
    ensures LoadHead(c + r, parent) == Got(h, r)
  {
    hide LoadName, IsName, LoadFixed, IsFixed, LoadList, IsList, LoadWord, IsWord, LoadConstant, IsConstant, Word;
    var s: Name, n, x, code, k :|
      && IsName(n, s) && h.source == (if s.None? then parent else s)
      && IsFixed(x, h.fixed) && IsList(code, h.code, IsWord) && IsList(k, h.k, IsConstant)
      && c == n + (x + (code + k));
    var r3 := k + r;
    var r2 := code + r3;
    var r1 := x + r2;
    assert c + r == n + r1;
    NameLoads(n, s, r1);
    FixedLoads(x, h.fixed, r2);
    WordsLoad(code, h.code, r3);
    forall a, y, t | IsConstant(a, y) ensures LoadConstant(a + t) == Got(y, t) { ConstantLoads(a, y, t); }
    ListLoads(k, h.k, LoadConstant, IsConstant, r);
  }

  lemma DebugLoads(c: Bytes, d: Debug, r: Bytes)
    requires IsDebug(c, d)
    ensures LoadDebug(c + r) == Got(d, r)
  {
    hide LoadName, IsName, LoadList, IsList, LoadWord, IsWord, LoadLocVar, IsLocVar;
    var lines, vars, ups :|
      && IsList(lines, d.lineinfo, IsWord) && IsList(vars, d.locvars, IsLocVar) && IsList(ups, d.upvalues, IsName)
      && c == lines + (vars + ups);
    var r2 := ups + r;
    var r1 := vars + r2;
    assert c + r == lines + r1;
    WordsLoad(lines, d.lineinfo, r1);
    forall a, y, t | IsLocVar(a, y) ensures LoadLocVar(a + t) == Got(y, t) { LocVarLoads(a, y, t); }
    ListLoads(vars, d.locvars, LoadLocVar, IsLocVar, r2);
    forall a, y, t | IsName(a, y) ensures LoadName(a + t) == Got(y, t) { NameLoads(a, y, t); }
    ListLoads(ups, d.upvalues, LoadName, IsName, r);
  }

  lemma {:induction false} FunctionLoads(c: Bytes, f: Proto, parent: Name, calls: nat, check: Check, r: Bytes)
    requires IsFunction(c, f, parent) && Passes(f, check) && calls + Depth(f) <= LUAI_MAXCCALLS
    ensures LoadFunction(c + r, parent, calls, check) == Got(f, r)
    decreases f, 1
  {
    hide LoadHead, LoadInt, LoadDebug, Word, LoadProtos, IsHead, IsDebug, IsFunctions;
    var h, ps, d :|
      && IsHead(h, HeadOf(f), parent) && IsFunctions(ps, f.p, f.source) && IsDebug(d, DebugOf(f))
      && c == h + (Word(|f.p|) + (ps + d));
    var r3 := d + r;
    var r2 := ps + r3;
    var r1 := Word(|f.p|) + r2;
    assert c + r == h + r1;
    HeadLoads(h, HeadOf(f), parent, r1);
    WordRoundTrip(|f.p|, r2);
    FunctionsLoad(ps, f.p, f.source, calls + 1, check, r3);
    DebugLoads(d, DebugOf(f), r);
    assert Build(f.source, HeadOf(f).fixed, f.code, f.k, f.p, DebugOf(f)) == f;
  }

  lemma {:induction false} FunctionsLoad(c: Bytes, fs: seq<Proto>, parent: Name, calls: nat, check: Check, r: Bytes)
    requires IsFunctions(c, fs, parent) && AllPass(fs, check) && calls + MaxDepth(fs) <= LUAI_MAXCCALLS
    ensures LoadProtos(c + r, |fs|, parent, calls, check) == Got(fs, r)
    decreases fs, 0
  {
    hide LoadFunction, IsFunction, Passes;
    if fs == [] {
      assert c + r == r;
    } else {
      var a, d :| IsFunction(a, fs[0], parent) && IsFunctions(d, fs[1..], parent) && c == a + d;
      assert c + r == a + (d + r);
      FunctionLoads(a, fs[0], parent, calls, check, d + r);
      FunctionsLoad(d, fs[1..], parent, calls, check, r);
      assert [fs[0]] + fs[1..] == fs;
    }
  }

  /** Main theorem, for all bytes: f is loaded and r left exactly if the bytes are the header, an
      image of f and r, every function of f passes the check and no nesting is too deep.  Every
      other input is an error. */
  lemma UndumpIff(b: Bytes, calls: nat, check: Check, f: Proto, r: Bytes)
    ensures Undump(b, calls, check) == Got(f, r) <==>
              && (exists c :: IsFunction(c, f, ANONYMOUS)
                              && b == [0x1B, 0x4C, 0x75, 0x61, 0x51, 0, 1, 4, 4, 4, 8, 0] + (c + r))
              && Passes(f, check) && calls + Depth(f) <= LUAI_MAXCCALLS
  {
    hide LoadFunction, IsFunction, Passes, Depth, Fits, Sourced;
    if Undump(b, calls, check) == Got(f, r) {
      Loaded(b, calls, check);
      var c := FunctionStands(b[12..], ANONYMOUS, calls, check);
      assert b == b[..12] + b[12..];
    }
    if Passes(f, check) && calls + Depth(f) <= LUAI_MAXCCALLS {
      forall c | IsFunction(c, f, ANONYMOUS) && b == HEADER + (c + r) ensures Undump(b, calls, check) == Got(f, r) {
        assert b[..|HEADER|] == HEADER && b[|HEADER|..] == c + r;
        FunctionLoads(c, f, ANONYMOUS, calls, check, r);
      }
    }
  }
}
