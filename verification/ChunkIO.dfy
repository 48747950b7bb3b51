/** Dumping through a writer that may fail, and loading from a reader that hands out the bytes
    in blocks of any size. */
module ChunkIO {
  import opened Common
  import opened Chunk

  // ----- buffered input

  /** The bytes a reader delivers: an empty block ends the input. */
  function Delivered(blocks: seq<Bytes>): Bytes {
    if blocks == [] || blocks[0] == [] then [] else blocks[0] + Delivered(blocks[1..])
  }

  class Zio {
    var p: Bytes               // what is left of the current block
    var blocks: seq<Bytes>     // what the reader will return

    constructor (blocks: seq<Bytes>)
      ensures Rest() == Delivered(blocks)
    {
      p, this.blocks := [], blocks;
    }

    ghost function Rest(): Bytes
      reads this
    {
      p + Delivered(blocks)
    }

    /** luaZ_lookahead: the next byte stays in the buffer. */
    method Lookahead() returns (more: bool)
      modifies this
      ensures Rest() == old(Rest()) && (more <==> Rest() != []) && (more ==> p != [])
    {
      if p == [] {
        if blocks == [] || blocks[0] == [] { return false; }
        p, blocks := blocks[0], blocks[1..];
      }
      more := true;
    }

    /** luaZ_read: the number of missing bytes is returned. */
    method Read(n: nat) returns (b: Bytes, missing: nat)
      modifies this
      ensures missing == 0 ==> |old(Rest())| >= n && b == old(Rest())[..n] && Rest() == old(Rest())[n..]
      ensures missing > 0 ==> missing == n - |old(Rest())|
    {
      hide Delivered;
      b, missing := [], n;
      while missing > 0
        invariant |b| + missing == n && old(Rest()) == b + Rest()
        decreases missing
      {
        var more := Lookahead();
        if !more { return; }
        var m := if missing <= |p| then missing else |p|;
        assert Rest() == p[..m] + (p[m..] + Delivered(blocks));
        b, p, missing := b + p[..m], p[m..], missing - m;
      }
    }
  }

  // ----- loading

  class LoadState {
    const z: Zio
    const check: Check

    constructor (z: Zio, check: Check)
      ensures this.z == z && this.check == check
    {
      this.z, this.check := z, check;
    }

    /** A step of loading has done what the function on the bytes says. */
    ghost predicate Did<T>(ok: bool, v: T, spec: Load<T>)
      reads z
    {
      match spec
      case Error => !ok
      case Got(x, r) => ok && v == x && z.Rest() == r
    }

    method Block(n: nat) returns (ok: bool, b: Bytes)
      modifies z
      ensures Did(ok, b, LoadBlock(old(z.Rest()), n))
    {
      var missing;
      b, missing := z.Read(n);
      ok := missing == 0;
    }

    method Char() returns (ok: bool, x: byte)
      modifies z
      ensures Did(ok, x, LoadChar(old(z.Rest())))
    {
      var b;
      ok, b := Block(1);
      x := if ok then b[0] else 0;
    }

    method Word() returns (ok: bool, x: word)
      modifies z
      ensures Did(ok, x, LoadWord(old(z.Rest())))
    {
      var b;
      ok, b := Block(4);
      x := if ok then WordOf(b) else 0;
    }

    method Int() returns (ok: bool, x: size)
      modifies z
      ensures Did(ok, x, LoadInt(old(z.Rest())))
    {
      hide LoadWord;
      var w;
      ok, w := Word();
      ok := ok && w < INT_LIMIT;
      x := if ok then w else 0;
    }

    method Str() returns (ok: bool, s: Name)
      modifies z
      ensures Did(ok, s, LoadName(old(z.Rest())))
    {
      hide LoadWord;
      s := None;
      var n, b;
      ok, n := Word();
      if !ok || n == 0 { return; }
      ok, b := Block(n);
      if ok { s := Some(b[..n - 1]); }
    }

    method Const() returns (ok: bool, c: Constant)
      modifies z
      ensures Did(ok, c, LoadConstant(old(z.Rest())))
    {
      hide LoadName;
      c := Nil;
      var t;
      ok, t := Char();
      if !ok || t == LUA_TNIL { return; }
      if t == LUA_TBOOLEAN {
        var x;
        ok, x := Char();
        c := Boolean(x != 0);
      } else if t == LUA_TNUMBER {
        var x;
        ok, x := Block(8);
        c := Number(x);
      } else if t == LUA_TSTRING {
        var s;
        ok, s := Str();
        c := String(if s.Some? then s.value else []);
      } else {
        ok := false;
      }
    }

    /** LoadVector: a count and that many words. */
    method Words() returns (ok: bool, xs: seq<word>)
      modifies z
      ensures Did(ok, xs, LoadList(old(z.Rest()), LoadWord))
    {
      hide LoadInt, LoadWord;
      xs := [];
      var n;
      ok, n := Int();
      if !ok { return; }
      ghost var b := z.Rest();
      AfterNone(LoadMany(b, n, LoadWord));
      var i := 0;
      while i < n
        invariant 0 <= i <= n && |xs| == i && ok
        invariant LoadMany(b, n, LoadWord) == After(xs, LoadMany(z.Rest(), n - i, LoadWord))
      {
        var x;
        ok, x := Word();
        if !ok { return; }
        AfterNext(xs, x, LoadMany(z.Rest(), n - i - 1, LoadWord));
        xs, i := xs + [x], i + 1;
      }
      AfterEnd(xs, z.Rest());
    }

    method Constants() returns (ok: bool, xs: seq<Constant>)
      modifies z
      ensures Did(ok, xs, LoadList(old(z.Rest()), LoadConstant))
    {
      hide LoadInt, LoadConstant;
      xs := [];
      var n;
      ok, n := Int();
      if !ok { return; }
      ghost var b := z.Rest();
      AfterNone(LoadMany(b, n, LoadConstant));
      var i := 0;
      while i < n
        invariant 0 <= i <= n && |xs| == i && ok
        invariant LoadMany(b, n, LoadConstant) == After(xs, LoadMany(z.Rest(), n - i, LoadConstant))
      {
        var x;
        ok, x := Const();
        if !ok { return; }
        AfterNext(xs, x, LoadMany(z.Rest(), n - i - 1, LoadConstant));
        xs, i := xs + [x], i + 1;
      }
      AfterEnd(xs, z.Rest());
    }

    method Local() returns (ok: bool, v: LocVar)
      modifies z
      ensures Did(ok, v, LoadLocVar(old(z.Rest())))
    {
      hide LoadInt, LoadName;
      v := LocVar(None, 0, 0);
      var s, start, end;
      ok, s := Str();
      if !ok { return; }
      ok, start := Int();
      if !ok { return; }
      ok, end := Int();
      v := LocVar(s, start, end);
    }

    method Locals() returns (ok: bool, xs: seq<LocVar>)
      modifies z
      ensures Did(ok, xs, LoadList(old(z.Rest()), LoadLocVar))
    {
      hide LoadInt, LoadLocVar;
      xs := [];
      var n;
      ok, n := Int();
      if !ok { return; }
      ghost var b := z.Rest();
      AfterNone(LoadMany(b, n, LoadLocVar));
      var i := 0;
      while i < n
        invariant 0 <= i <= n && |xs| == i && ok
        invariant LoadMany(b, n, LoadLocVar) == After(xs, LoadMany(z.Rest(), n - i, LoadLocVar))
      {
        var x;
        ok, x := Local();
        if !ok { return; }
        AfterNext(xs, x, LoadMany(z.Rest(), n - i - 1, LoadLocVar));
        xs, i := xs + [x], i + 1;
      }
      AfterEnd(xs, z.Rest());
    }

    method Upvalues() returns (ok: bool, xs: seq<Name>)
      modifies z
      ensures Did(ok, xs, LoadList(old(z.Rest()), LoadName))
    {
      hide LoadInt, LoadName;
      xs := [];
      var n;
      ok, n := Int();
      if !ok { return; }
      ghost var b := z.Rest();
      AfterNone(LoadMany(b, n, LoadName));
      var i := 0;
      while i < n
        invariant 0 <= i <= n && |xs| == i && ok
        invariant LoadMany(b, n, LoadName) == After(xs, LoadMany(z.Rest(), n - i, LoadName))
      {
        var x;
        ok, x := Str();
        if !ok { return; }
        AfterNext(xs, x, LoadMany(z.Rest(), n - i - 1, LoadName));
        xs, i := xs + [x], i + 1;
      }
      AfterEnd(xs, z.Rest());
    }

    method DebugInfo() returns (ok: bool, d: Debug)
      modifies z
      ensures Did(ok, d, LoadDebug(old(z.Rest())))
    {
      hide LoadList;
      d := Debug([], [], []);
      var lines, vars, ups;
      ok, lines := Words();
      if !ok { return; }
      ok, vars := Locals();
      if !ok { return; }
      ok, ups := Upvalues();
      d := Debug(lines, vars, ups);
    }

    method FixedPart() returns (ok: bool, x: Fixed)
      modifies z
      ensures Did(ok, x, LoadFixed(old(z.Rest())))
    {
      hide LoadInt;
      x := Fixed(0, 0, 0, 0, 0, 0);
      var first, last, q;
      ok, first := Int();
      if !ok { return; }
      ok, last := Int();
      if !ok { return; }
      ok, q := Block(4);
      if ok { x := Fixed(first, last, q[0], q[1], q[2], q[3]); }
    }

    method HeadPart(parent: Name) returns (ok: bool, h: Head)
      modifies z
      ensures Did(ok, h, LoadHead(old(z.Rest()), parent))
    {
      hide LoadList, LoadName, LoadFixed;
      h := Head(parent, Fixed(0, 0, 0, 0, 0, 0), [], []);
      var s, x, code, k;
      ok, s := Str();
      if !ok { return; }
      ok, x := FixedPart();
      if !ok { return; }
      ok, code := Words();
      if !ok { return; }
      ok, k := Constants();
      h := Head(if s.None? then parent else s, x, code, k);
    }

    /** LoadFunction, with calls functions being loaded already. */
    method Function(parent: Name, calls: nat) returns (ok: bool, f: Proto)
      modifies z
      ensures Did(ok, f, LoadFunction(old(z.Rest()), parent, calls, check))
      decreases Left(calls), 0
    {
      hide LoadHead, LoadInt, LoadDebug;
      f := EmptyProto();
      if calls + 1 > LUAI_MAXCCALLS { return false, f; }
      var h, n, ps, d;
      ok, h := HeadPart(parent);
      if !ok { return; }
      ok, n := Int();
      if !ok { return; }
      ok, ps := Functions(n, h.source, calls + 1);
      if !ok { return; }
      ok, d := DebugInfo();
      if !ok { return; }
      f := Build(h.source, h.fixed, h.code, h.k, ps, d);
      ok := check(f);
    }

    method Functions(n: nat, parent: Name, calls: nat) returns (ok: bool, xs: seq<Proto>)
      modifies z
      ensures Did(ok, xs, LoadProtos(old(z.Rest()), n, parent, calls, check))
      decreases Left(calls), 1
    {
      hide LoadFunction;
      ok, xs := true, [];
      AfterNone(LoadProtos(z.Rest(), n, parent, calls, check));
      var i := 0;
      while i < n
        invariant 0 <= i <= n && |xs| == i && ok
        invariant LoadProtos(old(z.Rest()), n, parent, calls, check)
                  == After(xs, LoadProtos(z.Rest(), n - i, parent, calls, check))
      {
        var x;
        ok, x := Function(parent, calls);
        if !ok { return; }
        AfterNext(xs, x, LoadProtos(z.Rest(), n - i - 1, parent, calls, check));
        xs, i := xs + [x], i + 1;
      }
      AfterEnd(xs, z.Rest());
    }

    /** luaU_undump. */
    method Chunk(calls: nat) returns (ok: bool, f: Proto)
      modifies z
      ensures Did(ok, f, Undump(old(z.Rest()), calls, check))
    {
      hide LoadFunction;
      var h;
      ok, h := Block(|HEADER|);
      f := EmptyProto();
      if !ok || h != HEADER { return false, f; }
      ok, f := Function(ANONYMOUS, calls);
    }
  }

  function EmptyProto(): Proto {
    Proto(None, 0, 0, 0, 0, 0, 0, [], [], [], [], [], [])
  }

  /** Items already read, and the rest of the list. */
  function After<T>(xs: seq<T>, rest: Load<seq<T>>): Load<seq<T>> {
    match rest
    case Error => Error
    case Got(ys, r) => Got(xs + ys, r)
  }

  lemma AfterNone<T>(rest: Load<seq<T>>)
    ensures After([], rest) == rest
  {
    if rest.Got? { assert [] + rest.value == rest.value; }
  }

  lemma AfterEnd<T>(xs: seq<T>, r: Bytes)
    ensures After(xs, Got([], r)) == Got(xs, r)
  {
    assert xs + [] == xs;
  }

  lemma AfterNext<T>(xs: seq<T>, x: T, rest: Load<seq<T>>)
    ensures After(xs, match rest case Error => Error case Got(ys, r) => Got([x] + ys, r)) == After(xs + [x], rest)
  {
    if rest.Got? { assert xs + ([x] + rest.value) == xs + [x] + rest.value; }
  }

  // ----- dumping

  /** What a lua_Writer answers to a block after it has taken some bytes: 0, or an error. */
  type Writer = (Bytes, Bytes) -> int

  /** The writer takes everything up to n bytes in all. */
  ghost predicate Takes(writer: Writer, n: nat) {
    forall out: Bytes, b: Bytes :: |out| + |b| <= n ==> writer(out, b) == 0
  }

  /** The effect of writing bytes: all of them, or a part if the writer fails on the way; nothing
      is written after a failure, and a writer with enough room does not fail. */
  ghost predicate Wrote(writer: Writer, out: Bytes, status: int, out': Bytes, status': int, bytes: Bytes) {
    && (if status != 0 then out' == out && status' == status
        else if status' == 0 then out' == out + bytes
        else out <= out' <= out + bytes)
    && (status == 0 && Takes(writer, |out| + |bytes|) ==> status' == 0)
  }

  lemma WroteBoth(writer: Writer, out: Bytes, status: int, out1: Bytes, status1: int, out2: Bytes, status2: int,
                  a: Bytes, b: Bytes)
    requires Wrote(writer, out, status, out1, status1, a) && Wrote(writer, out1, status1, out2, status2, b)
    ensures Wrote(writer, out, status, out2, status2, a + b)
  {
    assert out + a + b == out + (a + b);
    if status == 0 && Takes(writer, |out| + |a + b|) {
      TakesLess(writer, |out| + |a + b|, |out| + |a|);
    }
  }

  lemma TakesLess(writer: Writer, n: nat, m: nat)
    requires Takes(writer, n) && m <= n
    ensures Takes(writer, m)
  {
  }

  class DumpState {
    var out: Bytes
    var status: int
    const strip: bool
    const writer: Writer

    constructor (strip: bool, writer: Writer)
      ensures out == [] && status == 0 && this.strip == strip && this.writer == writer
    {
      out, status, this.strip, this.writer := [], 0, strip, writer;
    }

    method Block(b: Bytes)
      modifies this
      ensures Wrote(writer, old(out), old(status), out, status, b)
    {
      if status == 0 {
        status := writer(out, b);
        if status == 0 { out := out + b; }
      }
    }

    method Int(x: int)
      requires 0 <= x < INT_LIMIT
      modifies this
      ensures Wrote(writer, old(out), old(status), out, status, Word(x))
    {
      Block(Word(x));
    }

    method Str(s: Name)
      requires NameFits(s)
      modifies this
      ensures Wrote(writer, old(out), old(status), out, status, Names(s))
    {
      hide Word;
      match s
      case None => Block(Word(0));
      case Some(cs) =>
        Block(Word(|cs| + 1));
        ghost var o, st := out, status;
        Block(cs + [0]);
        WroteBoth(writer, old(out), old(status), o, st, out, status, Word(|cs| + 1), cs + [0]);
        assert Word(|cs| + 1) + (cs + [0]) == Names(s);
    }

    method Vector(xs: seq<word>)
      requires |xs| < INT_LIMIT
      modifies this
      ensures Wrote(writer, old(out), old(status), out, status, DumpVector(xs))
    {
      hide Word, DumpAll;
      Int(|xs|);
      ghost var o, st := out, status;
      Block(DumpAll(xs, Word));
      WroteBoth(writer, old(out), old(status), o, st, out, status, Word(|xs|), DumpAll(xs, Word));
    }

    method Const(c: Constant)
      requires ConstantOk(c)
      modifies this
      ensures Wrote(writer, old(out), old(status), out, status, DumpConstant(c))
    {
      hide Names;
      ghost var t := [DumpConstant(c)[0]];
      match c {
        case Nil => Block([LUA_TNIL]);
        case Boolean(_) => Block([LUA_TBOOLEAN]);
        case Number(_) => Block([LUA_TNUMBER]);
        case String(_) => Block([LUA_TSTRING]);
      }
      ghost var o, st := out, status;
      ghost var rest: Bytes := DumpConstant(c)[1..];
      match c {
        case Nil => Wrote0(out, status);
        case Boolean(b) => Block([if b then 1 else 0]);
        case Number(image) => Block(image);
        case String(s) => Str(Some(s));
      }
      WroteBoth(writer, old(out), old(status), o, st, out, status, t, rest);
      assert t + rest == DumpConstant(c);
    }

    lemma Wrote0(o: Bytes, st: int)
      ensures Wrote(writer, o, st, o, st, [])
    {
      assert o + [] == o;
    }

    method Constants(k: seq<Constant>)
      requires |k| < INT_LIMIT && forall c :: c in k ==> ConstantOk(c)
      modifies this
      ensures Wrote(writer, old(out), old(status), out, status, Count(k) + DumpAll(k, DumpConstant))
    {
      hide Word, DumpConstant, ConstantOk, Wrote;
      Int(|k|);
      DumpedNone(k, DumpConstant, Word(|k|));
      for i := 0 to |k|
        invariant Wrote(writer, old(out), old(status), out, status, Word(|k|) + DumpAll(k[..i], DumpConstant))
      {
        ghost var o, st := out, status;
        Const(k[i]);
        WroteBoth(writer, old(out), old(status), o, st, out, status, Word(|k|) + DumpAll(k[..i], DumpConstant),
          DumpConstant(k[i]));
        DumpedNext(k, i, DumpConstant, Word(|k|));
      }
      assert k[..|k|] == k;
    }

    method Local(v: LocVar)
      requires NameFits(v.varname)
      modifies this
      ensures Wrote(writer, old(out), old(status), out, status, DumpLocVar(v))
    {
      hide Word, Wrote, Names;
      Str(v.varname);
      ghost var o1, st1 := out, status;
      Int(v.startpc);
      WroteBoth(writer, old(out), old(status), o1, st1, out, status, Names(v.varname), Word(v.startpc));
      ghost var o2, st2 := out, status;
      Int(v.endpc);
      WroteBoth(writer, old(out), old(status), o2, st2, out, status, Names(v.varname) + Word(v.startpc), Word(v.endpc));
    }

    method Locals(vs: seq<LocVar>)
      requires |vs| < INT_LIMIT && forall v :: v in vs ==> NameFits(v.varname)
      modifies this
      ensures Wrote(writer, old(out), old(status), out, status, Count(vs) + DumpAll(vs, DumpLocVar))
    {
      hide Word, DumpLocVar, NameFits, Wrote;
      Int(|vs|);
      DumpedNone(vs, DumpLocVar, Word(|vs|));
      for i := 0 to |vs|
        invariant Wrote(writer, old(out), old(status), out, status, Word(|vs|) + DumpAll(vs[..i], DumpLocVar))
      {
        ghost var o, st := out, status;
        Local(vs[i]);
        WroteBoth(writer, old(out), old(status), o, st, out, status, Word(|vs|) + DumpAll(vs[..i], DumpLocVar),
          DumpLocVar(vs[i]));
        DumpedNext(vs, i, DumpLocVar, Word(|vs|));
      }
      assert vs[..|vs|] == vs;
    }

    method Upvalues(us: seq<Name>)
      requires |us| < INT_LIMIT && forall u :: u in us ==> NameFits(u)
      modifies this
      ensures Wrote(writer, old(out), old(status), out, status, Count(us) + DumpAll(us, Names))
    {
      hide Word, Names, NameFits, Wrote;
      Int(|us|);
      DumpedNone(us, Names, Word(|us|));
      for i := 0 to |us|
        invariant Wrote(writer, old(out), old(status), out, status, Word(|us|) + DumpAll(us[..i], Names))
      {
        ghost var o, st := out, status;
        Str(us[i]);
        WroteBoth(writer, old(out), old(status), o, st, out, status, Word(|us|) + DumpAll(us[..i], Names),
          Names(us[i]));
        DumpedNext(us, i, Names, Word(|us|));
      }
      assert us[..|us|] == us;
    }

    method DebugInfo(f: Proto)
      requires Fits(f)
      modifies this
      ensures Wrote(writer, old(out), old(status), out, status, DumpDebug(f, strip))
    {
      hide Word, Wrote, AllFit, DumpAll, NameFits, ConstantOk;
      var lines := if strip then [] else f.lineinfo;
      var vars := if strip then [] else f.locvars;
      var ups := if strip then [] else f.upvalues;
      Vector(lines);
      ghost var o1, st1 := out, status;
      Locals(vars);
      ghost var a, b, c := DumpVector(lines), Count(vars) + DumpAll(vars, DumpLocVar), Count(ups) + DumpAll(ups, Names);
      WroteBoth(writer, old(out), old(status), o1, st1, out, status, a, b);
      ghost var o2, st2 := out, status;
      Upvalues(ups);
      WroteBoth(writer, old(out), old(status), o2, st2, out, status, a + b, c);
      DebugIs(f, strip, lines, vars, ups);
    }

    method FixedPart(f: Proto)
      modifies this
      ensures Wrote(writer, old(out), old(status), out, status, DumpFixed(f))
    {
      hide Word, Wrote;
      Int(f.linedefined);
      ghost var o1, st1 := out, status;
      Int(f.lastlinedefined);
      WroteBoth(writer, old(out), old(status), o1, st1, out, status, Word(f.linedefined), Word(f.lastlinedefined));
      ghost var o2, st2 := out, status;
      Block([f.nups]);
      ghost var o3, st3 := out, status;
      Block([f.numparams]);
      WroteBoth(writer, o2, st2, o3, st3, out, status, [f.nups], [f.numparams]);
      ghost var o4, st4 := out, status;
      Block([f.is_vararg]);
      WroteBoth(writer, o2, st2, o4, st4, out, status, [f.nups] + [f.numparams], [f.is_vararg]);
      ghost var o5, st5 := out, status;
      Block([f.maxstacksize]);
      WroteBoth(writer, o2, st2, o5, st5, out, status, [f.nups] + [f.numparams] + [f.is_vararg], [f.maxstacksize]);
      ghost var four := [f.nups] + [f.numparams] + [f.is_vararg] + [f.maxstacksize];
      assert four == [f.nups, f.numparams, f.is_vararg, f.maxstacksize];
      WroteBoth(writer, old(out), old(status), o2, st2, out, status, Word(f.linedefined) + Word(f.lastlinedefined),
        four);
    }

    /** What is written before the nested functions. */
    method HeadPart(f: Proto, s: Name)
      requires Fits(f) && NameFits(s)
      modifies this
      ensures Wrote(writer, old(out), old(status), out, status, HeadBytes(f, s))
    {
      hide Word, Wrote, DumpAll, DumpFixed, DumpVector, NameFits, ConstantOk, AllFit, Names, Count;
      Str(s);
      ghost var o1, st1, b1 := out, status, Names(s);
      FixedPart(f);
      ghost var b2 := b1 + DumpFixed(f);
      WroteBoth(writer, old(out), old(status), o1, st1, out, status, b1, DumpFixed(f));
      ghost var o2, st2 := out, status;
      Vector(f.code);
      ghost var b3 := b2 + DumpVector(f.code);
      WroteBoth(writer, old(out), old(status), o2, st2, out, status, b2, DumpVector(f.code));
      ghost var o3, st3 := out, status;
      Constants(f.k);
      WroteBoth(writer, old(out), old(status), o3, st3, out, status, b3, Count(f.k) + DumpAll(f.k, DumpConstant));
    }

    /** DumpFunction. */
    method Function(f: Proto, parent: Name)
      requires Fits(f)
      modifies this
      ensures Wrote(writer, old(out), old(status), out, status, DumpFunction(f, parent, strip))
      decreases f, 1
    {
      hide Wrote, HeadBytes, DumpDebug, DumpFunction, DumpProtos, Count, NameFits;
      var s := if f.source == parent || strip then None else f.source;
      NoneFits();
      HeadPart(f, s);
      ghost var o1, st1 := out, status;
      Functions(f.p, f.source);
      ghost var b1, b2 := HeadBytes(f, s), Count(f.p) + DumpProtos(f.p, f.source, strip);
      WroteBoth(writer, old(out), old(status), o1, st1, out, status, b1, b2);
      ghost var o2, st2 := out, status;
      DebugInfo(f);
      WroteBoth(writer, old(out), old(status), o2, st2, out, status, b1 + b2, DumpDebug(f, strip));
      FunctionIs(f, parent, strip);
    }

    lemma NoneFits()
      ensures NameFits(None)
    {
    }

    method Functions(ps: seq<Proto>, parent: Name)
      requires |ps| < INT_LIMIT && AllFit(ps)
      modifies this
      ensures Wrote(writer, old(out), old(status), out, status, Count(ps) + DumpProtos(ps, parent, strip))
      decreases ps, 0
    {
      hide Word, Wrote, DumpFunction, Fits;
      Int(|ps|);
      ghost var head := Word(|ps|);
      assert DumpProtos(ps, parent, strip) == DumpProtos(ps[..0], parent, strip)
        + DumpProtos(ps[0..], parent, strip) by { ProtosSplit(ps, 0, parent, strip); }
      assert head + DumpProtos(ps[..0], parent, strip) == head;
      for i := 0 to |ps|
        invariant Wrote(writer, old(out), old(status), out, status, head + DumpProtos(ps[..i], parent, strip))
      {
        ghost var o, st := out, status;
        EachFits(ps, i);
        Function(ps[i], parent);
        WroteBoth(writer, old(out), old(status), o, st, out, status, head + DumpProtos(ps[..i], parent, strip),
          DumpFunction(ps[i], parent, strip));
        ProtosNext(ps, i, parent, strip);
        assert head + DumpProtos(ps[..i], parent, strip) + DumpFunction(ps[i], parent, strip) == head
          + DumpProtos(ps[..i + 1], parent, strip);
      }
      assert ps[..|ps|] == ps;
    }

    /** luaU_dump. */
    method Chunk(f: Proto)
      requires Fits(f) && out == [] && status == 0
      modifies this
      ensures status == 0 ==> out == Dump(f, strip)
      ensures status != 0 ==> out <= Dump(f, strip)
      ensures Takes(writer, |Dump(f, strip)|) ==> status == 0
    {
      hide DumpFunction, Fits;
      Block(HEADER);
      ghost var o, st := out, status;
      Function(f, None);
      WroteBoth(writer, [], 0, o, st, out, status, HEADER, DumpFunction(f, None, strip));
    }
  }

  lemma DumpedNone<T>(xs: seq<T>, dump: T -> Bytes, head: Bytes)
    ensures head + DumpAll(xs[..0], dump) == head
  {
  }

  lemma {:induction false} DumpedSnoc<T>(xs: seq<T>, x: T, dump: T -> Bytes)
    ensures DumpAll(xs + [x], dump) == DumpAll(xs, dump) + dump(x)
    decreases |xs|
  {
    if xs == [] {
      assert ([] + [x])[1..] == [];
    } else {
      assert (xs + [x])[1..] == xs[1..] + [x];
      DumpedSnoc(xs[1..], x, dump);
    }
  }

  lemma DumpedNext<T>(xs: seq<T>, i: nat, dump: T -> Bytes, head: Bytes)
    requires i < |xs|
    ensures head + DumpAll(xs[..i], dump) + dump(xs[i]) == head + DumpAll(xs[..i + 1], dump)
  {
    assert xs[..i + 1] == xs[..i] + [xs[i]];
    DumpedSnoc(xs[..i], xs[i], dump);
  }

  lemma DebugIs(f: Proto, strip: bool, lines: seq<word>, vars: seq<LocVar>, ups: seq<Name>)
    requires lines == (if strip then [] else f.lineinfo) && vars == (if strip then [] else f.locvars)
             && ups == (if strip then [] else f.upvalues)
    ensures DumpVector(lines) + (Count(vars) + DumpAll(vars, DumpLocVar)) + (Count(ups) + DumpAll(ups, Names))
            == DumpDebug(f, strip)
  {
    hide Word, DumpLocVar, Names;
    if strip {
      assert DumpAll<word>([], Word) == [] && DumpAll<LocVar>([], DumpLocVar) == [] && DumpAll<Name>([], Names) == [];
    }
  }

  lemma {:induction false} ProtosSplit(ps: seq<Proto>, i: nat, parent: Name, strip: bool)
    requires i <= |ps|
    ensures DumpProtos(ps, parent, strip) == DumpProtos(ps[..i], parent, strip) + DumpProtos(ps[i..], parent, strip)
    decreases i
  {
    hide DumpFunction;
    if i == 0 {
      assert ps[0..] == ps;
    } else {
      ProtosSplit(ps[1..], i - 1, parent, strip);
      assert ps[1..][..i - 1] == ps[..i][1..] && ps[1..][i - 1..] == ps[i..];
    }
  }

  lemma ProtosNext(ps: seq<Proto>, i: nat, parent: Name, strip: bool)
    requires i < |ps|
    ensures DumpProtos(ps[..i + 1], parent, strip) == DumpProtos(ps[..i], parent, strip)
            + DumpFunction(ps[i], parent, strip)
  {
    hide DumpFunction;
    var qs := ps[..i + 1];
    ProtosSplit(qs, i, parent, strip);
    assert qs[..i] == ps[..i] && qs[i..] == [ps[i]];
  }

  lemma {:induction false} EachFits(ps: seq<Proto>, i: nat)
    requires AllFit(ps) && i < |ps|
    ensures Fits(ps[i])
    decreases i
  {
    if i > 0 { EachFits(ps[1..], i - 1); }
  }

  /** A function that was dumped is loaded again, stripped or not, however the reader splits the
      bytes; and it is dumped by every writer that has room for the chunk. */
  method SaveAndLoad(f: Proto, strip: bool, writer: Writer, blocks: Bytes -> seq<Bytes>, calls: nat, check: Check)
    returns (saved: bool, ok: bool, g: Proto)
    requires Fits(f) && calls + Depth(f) <= LUAI_MAXCCALLS && Passes(Reloaded(f, ANONYMOUS, strip), check)
    requires forall b :: Delivered(blocks(b)) == b
    ensures saved ==> ok && g == Reloaded(f, ANONYMOUS, strip)
    ensures !strip && Sourced(f) && saved ==> g == f
    ensures Takes(writer, |Dump(f, strip)|) ==> saved
  {
    hide Fits, Sourced, Undump, Dump, Passes, Delivered, Reloaded, Takes;
    var d := new DumpState(strip, writer);
    d.Chunk(f);
    saved, ok, g := d.status == 0, false, EmptyProto();
    if saved {
      var z := new Zio(blocks(d.out));
      var l := new LoadState(z, check);
      ok, g := l.Chunk(calls);
      ReloadedIs(f, ANONYMOUS);
      UndumpDump(f, strip, calls, check, []);
      assert Dump(f, strip) + [] == Dump(f, strip);
    }
  }
}
