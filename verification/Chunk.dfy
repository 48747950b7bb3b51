/** Precompiled chunks: the bytes a function is written as, how they are read back, and that
    reading undoes writing. */
module Chunk {
  import opened Common

  /** NULL or the characters of a string. */
  type Name = Option<Bytes>

  const WORD: int := 0x1_0000_0000
  const INT_LIMIT: int := 0x8000_0000

  /** An Instruction, or an int of lineinfo, as its 32 bits. */
  type word = x: int | 0 <= x < WORD

  /** LoadInt accepts non-negative ints only. */
  type size = x: int | 0 <= x < INT_LIMIT

  /** A number is kept as its eight bytes. */
  datatype Constant = Nil | Boolean(b: bool) | Number(image: Bytes) | String(s: Bytes)

  datatype LocVar = LocVar(varname: Name, startpc: size, endpc: size)

  datatype Proto = Proto(
    source: Name, linedefined: size, lastlinedefined: size,
    nups: byte, numparams: byte, is_vararg: byte, maxstacksize: byte,
    code: seq<word>, k: seq<Constant>, p: seq<Proto>,
    lineinfo: seq<word>, locvars: seq<LocVar>, upvalues: seq<Name>)

  const LUA_TNIL: byte := 0
  const LUA_TBOOLEAN: byte := 1
  const LUA_TNUMBER: byte := 3
  const LUA_TSTRING: byte := 4

  /** luaU_header on a little-endian machine with 4-byte ints and sizes. */
  const HEADER: Bytes := [0x1B, 0x4C, 0x75, 0x61, 0x51, 0, 1, 4, 4, 4, 8, 0]

  // ----- writing

  function Word(x: word): (b: Bytes)
    ensures |b| == 4
  {
    [x % 256, x / 256 % 256, x / 0x1_0000 % 256, x / 0x100_0000]
  }

  function DumpAll<T>(xs: seq<T>, dump: T -> Bytes): Bytes {
    if xs == [] then [] else dump(xs[0]) + DumpAll(xs[1..], dump)
  }

  function DumpName(s: Name): Bytes
    requires NameFits(s)
  {
    match s
    case None => Word(0)
    case Some(cs) => Word(|cs| + 1) + cs + [0]
  }

  /** Lengths have to fit their four bytes. */
  predicate NameFits(s: Name) {
    s.Some? ==> |s.value| + 1 < WORD
  }

  function Names(s: Name): Bytes {
    if NameFits(s) then DumpName(s) else []
  }

  function DumpConstant(c: Constant): Bytes {
    match c
    case Nil => [LUA_TNIL]
    case Boolean(b) => [LUA_TBOOLEAN, if b then 1 else 0]
    case Number(image) => [LUA_TNUMBER] + image
    case String(s) => [LUA_TSTRING] + Names(Some(s))
  }

  function DumpLocVar(v: LocVar): Bytes {
    Names(v.varname) + Word(v.startpc) + Word(v.endpc)
  }

  function Count<T>(xs: seq<T>): Bytes {
    if |xs| < INT_LIMIT then Word(|xs|) else []
  }

  function DumpVector(xs: seq<word>): Bytes {
    Count(xs) + DumpAll(xs, Word)
  }

  function DumpDebug(f: Proto, strip: bool): Bytes {
    if strip then Word(0) + Word(0) + Word(0)
    else
      DumpVector(f.lineinfo) + Count(f.locvars) + DumpAll(f.locvars, DumpLocVar) + Count(f.upvalues)
        + DumpAll(f.upvalues, Names)
  }

  function DumpFixed(f: Proto): Bytes {
    Word(f.linedefined) + Word(f.lastlinedefined) + [f.nups, f.numparams, f.is_vararg, f.maxstacksize]
  }

  /** DumpFunction; parent is the source of the enclosing function. */
  function DumpFunction(f: Proto, parent: Name, strip: bool): Bytes
    decreases f
  {
    Names(if f.source == parent || strip then None else f.source) + DumpFixed(f) + DumpVector(f.code)
    + Count(f.k) + DumpAll(f.k, DumpConstant)
    + Count(f.p) + DumpProtos(f.p, f.source, strip)
    + DumpDebug(f, strip)
  }

  function DumpProtos(ps: seq<Proto>, parent: Name, strip: bool): Bytes
    decreases ps
  {
    if ps == [] then [] else DumpFunction(ps[0], parent, strip) + DumpProtos(ps[1..], parent, strip)
  }

  /** luaU_dump. */
  function Dump(f: Proto, strip: bool): Bytes {
    HEADER + DumpFunction(f, None, strip)
  }

  // ----- reading

  /** An error, or a value and the bytes that are left. */
  datatype Load<T> = Error | Got(value: T, rest: Bytes)

  function LoadBlock(b: Bytes, n: nat): Load<Bytes> {
    if |b| < n then Error else Got(b[..n], b[n..])
  }

  function WordOf(b: Bytes): word
    requires |b| == 4
  {
    b[0] as int + 256 * b[1] as int + 0x1_0000 * b[2] as int + 0x100_0000 * b[3] as int
  }

  function LoadWord(b: Bytes): Load<word> {
    if |b| < 4 then Error else Got(WordOf(b[..4]), b[4..])
  }

  /** LoadInt: "bad integer" if negative. */
  function LoadInt(b: Bytes): Load<size> {
    match LoadWord(b)
    case Error => Error
    case Got(x, r) => if x >= INT_LIMIT then Error else Got(x, r)
  }

  function LoadChar(b: Bytes): Load<byte> {
    if b == [] then Error else Got(b[0], b[1..])
  }

  function LoadName(b: Bytes): Load<Name> {
    match LoadWord(b)
    case Error => Error
    case Got(n, r) =>
      if n == 0 then Got(None, r)
      else
        match LoadBlock(r, n)
        case Error => Error
        case Got(s, r') => Got(Some(s[..n - 1]), r')
  }

  function LoadMany<T>(b: Bytes, n: nat, load: Bytes -> Load<T>): Load<seq<T>>
    decreases n
  {
    if n == 0 then Got([], b)
    else
      match load(b)
      case Error => Error
      case Got(x, r) =>
        match LoadMany(r, n - 1, load)
        case Error => Error
        case Got(xs, r') => Got([x] + xs, r')
  }

  /** A count and that many items. */
  function LoadList<T>(b: Bytes, load: Bytes -> Load<T>): Load<seq<T>> {
    match LoadInt(b)
    case Error => Error
    case Got(n, r) => LoadMany(r, n, load)
  }

  function LoadConstant(b: Bytes): Load<Constant> {
    match LoadChar(b)
    case Error => Error
    case Got(t, r) =>
      if t == LUA_TNIL then Got(Nil, r)
      else if t == LUA_TBOOLEAN then (match LoadChar(r) case Error => Error case Got(x, r') => Got(Boolean(x != 0), r'))
      else if t == LUA_TNUMBER then (match LoadBlock(r, 8) case Error => Error case Got(x, r') => Got(Number(x), r'))
      else if t == LUA_TSTRING then
        (match LoadName(r)
         case Error => Error
         case Got(s, r') => Got(String(if s.Some? then s.value else []), r'))
      else Error
  }

  function LoadLocVar(b: Bytes): Load<LocVar> {
    match LoadName(b)
    case Error => Error
    case Got(s, r) =>
      match LoadInt(r)
      case Error => Error
      case Got(start, r') =>
        match LoadInt(r')
        case Error => Error
        case Got(end, r'') => Got(LocVar(s, start, end), r'')
  }

  datatype Fixed = Fixed(linedefined: size, lastlinedefined: size, nups: byte, numparams: byte, is_vararg: byte,
                         maxstacksize: byte)

  function LoadFixed(b: Bytes): Load<Fixed> {
    match LoadInt(b)
    case Error => Error
    case Got(first, r) =>
      match LoadInt(r)
      case Error => Error
      case Got(last, r') =>
        match LoadBlock(r', 4)
        case Error => Error
        case Got(q, r'') => Got(Fixed(first, last, q[0], q[1], q[2], q[3]), r'')
  }

  datatype Debug = Debug(lineinfo: seq<word>, locvars: seq<LocVar>, upvalues: seq<Name>)

  function LoadDebug(b: Bytes): Load<Debug> {
    match LoadList(b, LoadWord)
    case Error => Error
    case Got(lines, r) =>
      match LoadList(r, LoadLocVar)
      case Error => Error
      case Got(vars, r') =>
        match LoadList(r', LoadName)
        case Error => Error
        case Got(ups, r'') => Got(Debug(lines, vars, ups), r'')
  }

  /** luaG_checkcode is a parameter: any test of a function. */
  type Check = Proto -> bool

  function Build(source: Name, x: Fixed, code: seq<word>, k: seq<Constant>, p: seq<Proto>, d: Debug): Proto {
    Proto(source, x.linedefined, x.lastlinedefined, x.nups, x.numparams, x.is_vararg, x.maxstacksize,
          code, k, p, d.lineinfo, d.locvars, d.upvalues)
  }

  /** LoadFunction, when calls functions are already being loaded. */
  function LoadFunction(b: Bytes, parent: Name, calls: nat, check: Check): Load<Proto>
    decreases Left(calls), 0
  {
    if calls >= LUAI_MAXCCALLS then Error
    else
      match LoadHead(b, parent)
      case Error => Error
      case Got(h, r) =>
        match LoadInt(r)
        case Error => Error
        case Got(n, r') =>
          match LoadProtos(r', n, h.source, calls + 1, check)
          case Error => Error
          case Got(ps, r'') => LoadTail(r'', h, ps, check)
  }

  function Left(calls: nat): nat {
    if calls >= LUAI_MAXCCALLS then 0 else LUAI_MAXCCALLS - calls
  }

  function LoadProtos(b: Bytes, n: nat, parent: Name, calls: nat, check: Check): Load<seq<Proto>>
    decreases Left(calls), n + 1
  {
    if n == 0 then Got([], b)
    else
      match LoadFunction(b, parent, calls, check)
      case Error => Error
      case Got(f, r) =>
        match LoadProtos(r, n - 1, parent, calls, check)
        case Error => Error
        case Got(fs, r') => Got([f] + fs, r')
  }

  /** What comes before the nested functions. */
  datatype Head = Head(source: Name, fixed: Fixed, code: seq<word>, k: seq<Constant>)

  function LoadHead(b: Bytes, parent: Name): Load<Head> {
    match LoadName(b)
    case Error => Error
    case Got(s, r) =>
      match LoadFixed(r)
      case Error => Error
      case Got(x, r') =>
        match LoadList(r', LoadWord)
        case Error => Error
        case Got(code, r'') =>
          match LoadList(r'', LoadConstant)
          case Error => Error
          case Got(k, rest) => Got(Head(if s.None? then parent else s, x, code, k), rest)
  }

  function LoadTail(b: Bytes, h: Head, ps: seq<Proto>, check: Check): Load<Proto> {
    match LoadDebug(b)
    case Error => Error
    case Got(d, r) =>
      var f := Build(h.source, h.fixed, h.code, h.k, ps, d);
      if check(f) then Got(f, r) else Error
  }

  const ANONYMOUS: Name := Some([0x3D, 0x3F])

  /** luaU_undump, with calls C calls already on the stack. */
  function Undump(b: Bytes, calls: nat, check: Check): Load<Proto> {
    match LoadBlock(b, |HEADER|)
    case Error => Error
    case Got(h, r) => if h != HEADER then Error else LoadFunction(r, ANONYMOUS, calls, check)
  }

  // ----- reading undoes writing

  lemma WordRoundTrip(x: word, r: Bytes)
    ensures LoadWord(Word(x) + r) == Got(x, r)
    ensures x < INT_LIMIT ==> LoadInt(Word(x) + r) == Got(x, r)
  {
    assert (Word(x) + r)[..4] == Word(x) && (Word(x) + r)[4..] == r;
    Digits(x);
  }

  lemma Digits(x: word)
    ensures x == x % 256 + 256 * (x / 256 % 256) + 0x1_0000 * (x / 0x1_0000 % 256) + 0x100_0000 * (x / 0x100_0000)
  {
    var y := x / 256;
    var z := y / 256;
    assert x / 0x1_0000 == z && x / 0x100_0000 == z / 256;
    assert x == x % 256 + 256 * y && y == y % 256 + 256 * z && z == z % 256 + 256 * (z / 256);
  }

  lemma NameRoundTrip(s: Name, r: Bytes)
    requires NameFits(s)
    ensures LoadName(Names(s) + r) == Got(s, r)
  {
    hide Word, LoadWord;
    match s
    case None => WordRoundTrip(0, r);
    case Some(cs) =>
      var body := cs + [0];
      assert Names(s) + r == Word(|cs| + 1) + (body + r);
      WordRoundTrip(|cs| + 1, body + r);
      assert (body + r)[..|body|] == body && (body + r)[|body|..] == r;
      assert body[..|cs|] == cs;
  }

  predicate ConstantOk(c: Constant) {
    match c
    case Number(image) => |image| == 8
    case String(s) => NameFits(Some(s))
    case _ => true
  }

  lemma ConstantRoundTrip(c: Constant, r: Bytes)
    requires ConstantOk(c)
    ensures LoadConstant(DumpConstant(c) + r) == Got(c, r)
  {
    hide LoadName, Names;
    var b := DumpConstant(c) + r;
    match c
    case Nil => assert b[1..] == r;
    case Boolean(x) => assert b[1..] == [if x then 1 else 0] + r && b[1..][1..] == r;
    case Number(image) => assert b[1..] == image + r && (image + r)[..8] == image && (image + r)[8..] == r;
    case String(s) =>
      assert b[1..] == Names(Some(s)) + r;
      NameRoundTrip(Some(s), r);
  }

  lemma LocVarRoundTrip(v: LocVar, r: Bytes)
    requires NameFits(v.varname)
    ensures LoadLocVar(DumpLocVar(v) + r) == Got(v, r)
  {
    hide LoadName, Names, Word, LoadInt;
    var r2 := Word(v.endpc) + r;
    var r1 := Word(v.startpc) + r2;
    assert DumpLocVar(v) + r == Names(v.varname) + r1;
    NameRoundTrip(v.varname, r1);
    WordRoundTrip(v.startpc, r2);
    WordRoundTrip(v.endpc, r);
  }

  /** If reading undoes writing for one item, it does so for many. */
  lemma {:induction false} ManyRoundTrip<T>(xs: seq<T>, dump: T -> Bytes, load: Bytes -> Load<T>, r: Bytes)
    requires forall x, t :: x in xs ==> load(dump(x) + t) == Got(x, t)
    ensures LoadMany(DumpAll(xs, dump) + r, |xs|, load) == Got(xs, r)
    decreases |xs|
  {
    if xs != [] {
      var tail := DumpAll(xs[1..], dump) + r;
      assert DumpAll(xs, dump) + r == dump(xs[0]) + tail;
      assert xs[0] in xs;
      ManyRoundTrip(xs[1..], dump, load, r);
      assert xs == [xs[0]] + xs[1..];
    } else {
      assert DumpAll(xs, dump) + r == r;
    }
  }

  lemma ListRoundTrip<T>(xs: seq<T>, dump: T -> Bytes, load: Bytes -> Load<T>, r: Bytes)
    requires |xs| < INT_LIMIT && forall x, t :: x in xs ==> load(dump(x) + t) == Got(x, t)
    ensures LoadList(Count(xs) + DumpAll(xs, dump) + r, load) == Got(xs, r)
  {
    hide Word, LoadInt, LoadMany, DumpAll;
    assert Count(xs) + DumpAll(xs, dump) + r == Word(|xs|) + (DumpAll(xs, dump) + r);
    WordRoundTrip(|xs|, DumpAll(xs, dump) + r);
    ManyRoundTrip(xs, dump, load, r);
  }

  lemma VectorRoundTrip(xs: seq<word>, r: Bytes)
    requires |xs| < INT_LIMIT
    ensures LoadList(DumpVector(xs) + r, LoadWord) == Got(xs, r)
  {
    hide LoadList, DumpAll, LoadWord, Word;
    forall x: word, t | x in xs ensures LoadWord(Word(x) + t) == Got(x, t) { WordRoundTrip(x, t); }
    ListRoundTrip(xs, Word, LoadWord, r);
  }

  /** Everything fits the fields it is written in. */
  predicate Fits(f: Proto)
    decreases f
  {
    && NameFits(f.source) && |f.code| < INT_LIMIT && |f.k| < INT_LIMIT && |f.p| < INT_LIMIT
    && |f.lineinfo| < INT_LIMIT && |f.locvars| < INT_LIMIT && |f.upvalues| < INT_LIMIT
    && (forall c :: c in f.k ==> ConstantOk(c)) && (forall v :: v in f.locvars ==> NameFits(v.varname))
    && (forall s :: s in f.upvalues ==> NameFits(s)) && AllFit(f.p)
  }

  predicate AllFit(ps: seq<Proto>)
    decreases ps
  {
    ps == [] || (Fits(ps[0]) && AllFit(ps[1..]))
  }

  /** What is read back: a function without a source has that of the enclosing function;
      stripping drops the sources and the debug information. */
  function Reloaded(f: Proto, parent: Name, strip: bool): Proto
    decreases f
  {
    var source := if strip || f.source.None? then parent else f.source;
    var g := f.(source := source, p := ReloadedAll(f.p, source, strip));
    if strip then g.(lineinfo := [], locvars := [], upvalues := []) else g
  }

  function ReloadedAll(ps: seq<Proto>, parent: Name, strip: bool): (rs: seq<Proto>)
    ensures |rs| == |ps|
    decreases ps
  {
    if ps == [] then [] else [Reloaded(ps[0], parent, strip)] + ReloadedAll(ps[1..], parent, strip)
  }

  /** Every function that is read back passes the check. */
  predicate Passes(f: Proto, check: Check)
    decreases f
  {
    check(f) && AllPass(f.p, check)
  }

  predicate AllPass(ps: seq<Proto>, check: Check)
    decreases ps
  {
    ps == [] || (Passes(ps[0], check) && AllPass(ps[1..], check))
  }

  function Depth(f: Proto): nat
    decreases f
  {
    1 + MaxDepth(f.p)
  }

  function MaxDepth(ps: seq<Proto>): nat
    decreases ps
  {
    if ps == [] then 0 else var d, m := Depth(ps[0]), MaxDepth(ps[1..]); if d > m then d else m
  }

  lemma DebugRoundTrip(f: Proto, strip: bool, r: Bytes)
    requires Fits(f)
    ensures var g := Reloaded(f, None, strip);
            LoadDebug(DumpDebug(f, strip) + r) == Got(Debug(g.lineinfo, g.locvars, g.upvalues), r)
  {
    hide LoadList, DumpAll, DumpVector, ReloadedAll, AllFit, Word, LoadName, Names, LoadWord, LoadLocVar, DumpLocVar;
    if strip {
      EmptyLists(r);
    } else {
      var r2 := Count(f.upvalues) + DumpAll(f.upvalues, Names) + r;
      var r1 := Count(f.locvars) + DumpAll(f.locvars, DumpLocVar) + r2;
      assert DumpDebug(f, strip) + r == DumpVector(f.lineinfo) + r1;
      VectorRoundTrip(f.lineinfo, r1);
      forall x, t | x in f.locvars ensures LoadLocVar(DumpLocVar(x) + t) == Got(x, t) { LocVarRoundTrip(x, t); }
      ListRoundTrip(f.locvars, DumpLocVar, LoadLocVar, r2);
      forall x, t | x in f.upvalues ensures LoadName(Names(x) + t) == Got(x, t) { NameRoundTrip(x, t); }
      ListRoundTrip(f.upvalues, Names, LoadName, r);
    }
  }

  lemma EmptyLists(r: Bytes)
    ensures LoadDebug(Word(0) + Word(0) + Word(0) + r) == Got(Debug([], [], []), r)
  {
    hide Word, LoadInt;
    var r1 := Word(0) + r;
    var r2 := Word(0) + r1;
    assert Word(0) + Word(0) + Word(0) + r == Word(0) + r2;
    WordRoundTrip(0, r2);
    WordRoundTrip(0, r1);
    WordRoundTrip(0, r);
  }

  lemma FixedRoundTrip(f: Proto, r: Bytes)
    ensures LoadFixed(DumpFixed(f) + r)
            == Got(Fixed(f.linedefined, f.lastlinedefined, f.nups, f.numparams, f.is_vararg, f.maxstacksize), r)
  {
    hide Word, LoadInt;
    var q := [f.nups, f.numparams, f.is_vararg, f.maxstacksize];
    var r1 := Word(f.lastlinedefined) + (q + r);
    assert DumpFixed(f) + r == Word(f.linedefined) + r1;
    WordRoundTrip(f.linedefined, r1);
    WordRoundTrip(f.lastlinedefined, q + r);
    assert (q + r)[..4] == q && (q + r)[4..] == r;
  }

  lemma HeadRoundTrip(f: Proto, dumped: Name, parent: Name, r: Bytes)
    requires Fits(f) && NameFits(dumped)
    ensures LoadHead(Names(dumped) + DumpFixed(f) + DumpVector(f.code) + Count(f.k) + DumpAll(f.k, DumpConstant) + r,
            parent) ==
            Got(Head(if dumped.None? then parent else dumped,
                     Fixed(f.linedefined, f.lastlinedefined, f.nups, f.numparams, f.is_vararg, f.maxstacksize),
                       f.code, f.k), r)
  {
    hide LoadList, DumpAll, DumpVector, AllFit, Word, LoadName, Names, LoadWord, LoadConstant, DumpConstant,
      LoadFixed, DumpFixed, Count;
    var r3 := Count(f.k) + DumpAll(f.k, DumpConstant) + r;
    var r2 := DumpVector(f.code) + r3;
    var r1 := DumpFixed(f) + r2;
    assert Names(dumped) + DumpFixed(f) + DumpVector(f.code) + Count(f.k) + DumpAll(f.k, DumpConstant) + r
      == Names(dumped) + r1;
    NameRoundTrip(dumped, r1);
    FixedRoundTrip(f, r2);
    VectorRoundTrip(f.code, r3);
    forall c, t | c in f.k ensures LoadConstant(DumpConstant(c) + t) == Got(c, t) { ConstantRoundTrip(c, t); }
    ListRoundTrip(f.k, DumpConstant, LoadConstant, r);
  }

  function HeadBytes(f: Proto, s: Name): Bytes {
    Names(s) + DumpFixed(f) + DumpVector(f.code) + (Count(f.k) + DumpAll(f.k, DumpConstant))
  }

  lemma FunctionIs(f: Proto, parent: Name, strip: bool)
    ensures var s := if f.source == parent || strip then None else f.source;
            HeadBytes(f, s) + (Count(f.p) + DumpProtos(f.p, f.source, strip)) + DumpDebug(f, strip)
              == DumpFunction(f, parent, strip)
  {
    hide Names, DumpFixed, DumpVector, Count, DumpAll, DumpDebug, DumpProtos;
  }

  /** What the nested functions and the rest of f are read back as. */
  lemma ReloadedParts(f: Proto, loaded: Name, strip: bool, check: Check)
    requires Fits(f) && Passes(Reloaded(f, loaded, strip), check)
    ensures var g := Reloaded(f, loaded, strip);
            && g.source == (if strip || f.source.None? then loaded else f.source)
            && g.p == ReloadedAll(f.p, g.source, strip) && AllFit(f.p) && AllPass(g.p, check) && check(g)
            && g == Build(g.source,
               Fixed(f.linedefined, f.lastlinedefined, f.nups, f.numparams, f.is_vararg, f.maxstacksize),
                          f.code, f.k, g.p, Debug(g.lineinfo, g.locvars, g.upvalues))
            && Debug(g.lineinfo, g.locvars, g.upvalues)
               == Debug(Reloaded(f, None, strip).lineinfo, Reloaded(f, None, strip).locvars,
                 Reloaded(f, None, strip).upvalues)
            && NameFits(f.source) && |f.p| < INT_LIMIT
  {
  }

  /** parent is the source of the enclosing function as it was written, loaded as it was read. */
  lemma {:induction false} FunctionRoundTrip(f: Proto, parent: Name, loaded: Name, strip: bool, calls: nat,
                                             check: Check, r: Bytes)
    requires Fits(f) && calls + Depth(f) <= LUAI_MAXCCALLS && Passes(Reloaded(f, loaded, strip), check)
    requires strip || parent.None? || loaded == parent
    ensures LoadFunction(DumpFunction(f, parent, strip) + r, loaded, calls, check) == Got(Reloaded(f, loaded, strip), r)
    decreases f
  {
    hide LoadHead, LoadDebug, DumpDebug, HeadBytes, DumpProtos, Word, LoadInt, DumpFunction, Reloaded, Fits, Passes,
      AllFit, AllPass, ReloadedAll, LoadProtos;
    var dumped := if f.source == parent || strip then None else f.source;
    var g := Reloaded(f, loaded, strip);
    ReloadedParts(f, loaded, strip, check);
    var tail := DumpDebug(f, strip) + r;
    var protos := DumpProtos(f.p, f.source, strip) + tail;
    var rest := Word(|f.p|) + protos;
    FunctionIs(f, parent, strip);
    assert DumpFunction(f, parent, strip) + r == HeadBytes(f, dumped) + rest;
    HeadIs(f, dumped, loaded, rest);
    WordRoundTrip(|f.p|, protos);
    ProtosRoundTrip(f.p, f.source, g.source, strip, calls + 1, check, tail);
    DebugRoundTrip(f, strip, r);
  }

  lemma HeadIs(f: Proto, dumped: Name, parent: Name, r: Bytes)
    requires Fits(f) && NameFits(dumped)
    ensures LoadHead(HeadBytes(f, dumped) + r, parent) ==
            Got(Head(if dumped.None? then parent else dumped,
                     Fixed(f.linedefined, f.lastlinedefined, f.nups, f.numparams, f.is_vararg, f.maxstacksize),
                       f.code, f.k), r)
  {
    hide LoadHead, Names, DumpFixed, DumpVector, Count, DumpAll, Fits;
    HeadRoundTrip(f, dumped, parent, r);
    var a := Names(dumped) + DumpFixed(f) + DumpVector(f.code);
    assert a + Count(f.k) + DumpAll(f.k, DumpConstant) == a + (Count(f.k) + DumpAll(f.k, DumpConstant));
  }

  lemma {:induction false} ProtosRoundTrip(ps: seq<Proto>, parent: Name, loaded: Name, strip: bool, calls: nat,
                                           check: Check, r: Bytes)
    requires AllFit(ps) && calls + MaxDepth(ps) <= LUAI_MAXCCALLS && AllPass(ReloadedAll(ps, loaded, strip), check)
    requires strip || parent.None? || loaded == parent
    ensures LoadProtos(DumpProtos(ps, parent, strip) + r, |ps|, loaded, calls, check)
            == Got(ReloadedAll(ps, loaded, strip), r)
    decreases ps
  {
    hide LoadFunction, DumpFunction, Reloaded, Fits, Passes;
    if ps == [] {
      assert DumpProtos(ps, parent, strip) + r == r;
    } else {
      var tail := DumpProtos(ps[1..], parent, strip) + r;
      assert DumpProtos(ps, parent, strip) + r == DumpFunction(ps[0], parent, strip) + tail;
      var gs := ReloadedAll(ps, loaded, strip);
      assert gs[1..] == ReloadedAll(ps[1..], loaded, strip);
      FunctionRoundTrip(ps[0], parent, loaded, strip, calls, check, tail);
      ProtosRoundTrip(ps[1..], parent, loaded, strip, calls, check, r);
    }
  }

  /** Loading what was dumped, followed by anything. */
  lemma UndumpDump(f: Proto, strip: bool, calls: nat, check: Check, r: Bytes)
    requires Fits(f) && calls + Depth(f) <= LUAI_MAXCCALLS && Passes(Reloaded(f, ANONYMOUS, strip), check)
    ensures Undump(Dump(f, strip) + r, calls, check) == Got(Reloaded(f, ANONYMOUS, strip), r)
  {
    hide LoadFunction, DumpFunction, Reloaded;
    var body := DumpFunction(f, None, strip) + r;
    assert Dump(f, strip) + r == HEADER + body;
    assert (HEADER + body)[..|HEADER|] == HEADER && (HEADER + body)[|HEADER|..] == body;
    FunctionRoundTrip(f, None, ANONYMOUS, strip, calls, check, r);
  }

  /** No function of the tree lacks a source. */
  predicate Sourced(f: Proto)
    decreases f
  {
    f.source.Some? && AllSourced(f.p)
  }

  predicate AllSourced(ps: seq<Proto>)
    decreases ps
  {
    ps == [] || (Sourced(ps[0]) && AllSourced(ps[1..]))
  }

  lemma {:induction false} ReloadedIs(f: Proto, parent: Name)
    requires parent.Some?
    ensures Reloaded(f, parent, false) == f <==> Sourced(f)
    decreases f
  {
    if f.source.Some? {
      ReloadedAllIs(f.p, f.source);
      assert Reloaded(f, parent, false) == f.(p := ReloadedAll(f.p, f.source, false));
    } else {
      assert Reloaded(f, parent, false).source == parent;
    }
  }

  lemma {:induction false} ReloadedAllIs(ps: seq<Proto>, parent: Name)
    requires parent.Some?
    ensures ReloadedAll(ps, parent, false) == ps <==> AllSourced(ps)
    decreases ps
  {
    if ps != [] {
      ReloadedIs(ps[0], parent);
      ReloadedAllIs(ps[1..], parent);
      var gs := ReloadedAll(ps, parent, false);
      assert gs[0] == Reloaded(ps[0], parent, false) && gs[1..] == ReloadedAll(ps[1..], parent, false);
      assert ps == [ps[0]] + ps[1..] && gs == [gs[0]] + gs[1..];
    }
  }

  /** The function itself is read back exactly if every function in it has a source. */
  lemma UndumpExact(f: Proto, calls: nat, check: Check, r: Bytes)
    requires Fits(f) && calls + Depth(f) <= LUAI_MAXCCALLS && Passes(Reloaded(f, ANONYMOUS, false), check)
    ensures Undump(Dump(f, false) + r, calls, check) == Got(f, r) <==> Sourced(f)
  {
    hide Undump, Dump, Reloaded, Sourced;
    UndumpDump(f, false, calls, check, r);
    ReloadedIs(f, ANONYMOUS);
  }
}
