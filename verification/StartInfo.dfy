/**
 The start-info buffer: lrt/ulnx/lrt_start.c strips the -ebbos arguments and serializes the
 rest with the environment; l1/L1Prim.c parses the buffer again. A buffer byte is a char;
 an int is four bytes, least significant first.
 */
module StartInfo {
  import opened Common
  import MemMgrPrimSimple

  const NUL: char := '\0'
  const EBBOS: string := "-ebbos"
  const CORES: string := "-ebbos_cores"

  /** A C string: no NUL inside. */
  predicate CString(s: string) { NUL !in s }

  predicate CStrings(xs: seq<string>) {
    forall i :: 0 <= i < |xs| ==> CString(xs[i])
  }

  // ----- an int in four bytes

  function IntBytes(n: nat): (b: string)
    requires n < 0x8000_0000
    ensures |b| == 4
  {
    [(n % 256) as char, (n / 256 % 256) as char, (n / 65536 % 256) as char, (n / 16777216) as char]
  }

  function ByteOf(c: char): (n: nat)
    ensures n < 256
  {
    (c as int) % 256
  }

  /** Reading an int back; a set top bit makes it negative. */
  function IntOf(b: string): (n: int)
    requires |b| >= 4
    ensures -0x8000_0000 <= n < 0x8000_0000
  {
    var u := ByteOf(b[0]) + 256 * ByteOf(b[1]) + 65536 * ByteOf(b[2]) + 16777216 * ByteOf(b[3]);
    if u >= 0x8000_0000 then u - 0x1_0000_0000 else u
  }

  lemma {:induction false} Digits(n: nat)
    ensures n == n % 256 + 256 * (n / 256 % 256) + 65536 * (n / 65536 % 256) + 16777216 * (n / 16777216)
  {
    var a, b, c := n / 256, n / 65536, n / 16777216;
    assert a / 256 == b && b / 256 == c;
  }

  lemma {:induction false} ByteIs(k: nat)
    requires k < 256
    ensures ByteOf(k as char) == k
  {
  }

  lemma {:induction false} IntRoundTrip(n: nat)
    requires n < 0x8000_0000
    ensures IntOf(IntBytes(n)) == n
  {
    Digits(n);
    ByteIs(n % 256);
    ByteIs(n / 256 % 256);
    ByteIs(n / 65536 % 256);
    ByteIs(n / 16777216);
  }

  // ----- stripping and serializing

  /** The arguments that applications get to see: -ebbos arguments go, -ebbos_cores with
      the value behind it. */
  function Strip(args: seq<string>): seq<string> {
    if args == [] then []
    else if CORES <= args[0] then (if |args| > 1 then Strip(args[2..]) else [])
    else if EBBOS <= args[0] then Strip(args[1..])
    else [args[0]] + Strip(args[1..])
  }

  /** The value that the last processed -ebbos_cores leaves in start_args. */
  function CoresArg(args: seq<string>): Option<string> {
    if args == [] then None
    else if CORES <= args[0] then
      if |args| > 1 then
        var later := CoresArg(args[2..]);
        if later.Some? then later else Some(args[1])
      else None
    else CoresArg(args[1..])
  }

  /** An -ebbos_cores that is processed without a value behind it: the code then converts
      the NULL that ends argv. */
  predicate Dangling(args: seq<string>) {
    if args == [] then false
    else if CORES <= args[0] then |args| == 1 || Dangling(args[2..])
    else Dangling(args[1..])
  }

  /** How many arguments at the end begin with -ebbos_cores. */
  function TrailingCores(args: seq<string>): nat {
    if args == [] || !(CORES <= args[|args| - 1]) then 0 else 1 + TrailingCores(args[..|args| - 1])
  }

  lemma {:induction false} TrailingPrepend(a: string, rest: seq<string>)
    ensures TrailingCores(rest) <= |rest|
    ensures TrailingCores([a] + rest) ==
            TrailingCores(rest) + if TrailingCores(rest) == |rest| && CORES <= a then 1 else 0
  {
    if rest == [] {
      assert [a] + rest == [a] && [a][..0] == [];
    } else {
      var front := rest[..|rest| - 1];
      assert ([a] + rest)[..|rest|] == [a] + front;
      TrailingPrepend(a, front);
    }
  }

  lemma {:induction false} TrailingFirst(args: seq<string>)
    requires args != []
    ensures TrailingCores(args[1..]) <= |args| - 1
    ensures TrailingCores(args) ==
            TrailingCores(args[1..]) + if TrailingCores(args[1..]) == |args| - 1 && CORES <= args[0] then 1 else 0
  {
    assert args == [args[0]] + args[1..];
    TrailingPrepend(args[0], args[1..]);
  }

  /** Two arguments in front, the first of them -ebbos_cores, do not change the parity. */
  lemma {:induction false} TrailingPair(args: seq<string>)
    requires |args| > 1 && CORES <= args[0]
    ensures TrailingCores(args) % 2 == TrailingCores(args[2..]) % 2
  {
    assert args[1..][1..] == args[2..];
    TrailingFirst(args);
    TrailingFirst(args[1..]);
  }

  /** What a caller can see of a dangling -ebbos_cores: each takes the next argument as its
      value, so the last one is left without if and only if the arguments end with an odd
      number of them. */
  lemma {:induction false} DanglingIff(args: seq<string>)
    ensures Dangling(args) <==> TrailingCores(args) % 2 == 1
  {
    if args == [] {
    } else if !(CORES <= args[0]) {
      TrailingFirst(args);
      DanglingIff(args[1..]);
    } else if |args| > 1 {
      TrailingPair(args);
      DanglingIff(args[2..]);
    } else {
      TrailingFirst(args);
    }
  }

  /** The shortest input that crashes. */
  lemma {:induction false} DanglingExample()
    ensures Dangling(["-ebbos_cores"]) && !Dangling(["-ebbos_cores", "4"])
    ensures !Dangling(["-ebbos_cores", "-ebbos_cores"])
  {
    assert ["-ebbos_cores", "4"][2..] == [] && ["-ebbos_cores", "-ebbos_cores"][2..] == [];
  }

  /** Whether argument i is the value of the one before it, as a caller can see: an odd number
      of arguments right before it begin with -ebbos_cores. */
  predicate IsValue(args: seq<string>, i: nat)
    requires i <= |args|
  {
    TrailingCores(args[..i]) % 2 == 1
  }

  /** Of the first n arguments, those that neither are values nor begin with -ebbos. */
  function Kept(args: seq<string>, n: nat): seq<string>
    requires n <= |args|
  {
    if n == 0 then []
    else Kept(args, n - 1) + if IsValue(args, n - 1) || EBBOS <= args[n - 1] then [] else [args[n - 1]]
  }

  /** The last of the first n arguments that is a value. */
  function LastValue(args: seq<string>, n: nat): Option<string>
    requires n <= |args|
  {
    if n == 0 then None else if IsValue(args, n - 1) then Some(args[n - 1]) else LastValue(args, n - 1)
  }

  lemma {:induction false} ValueShift(args: seq<string>, d: nat, i: nat)
    requires d + i <= |args| && (d == 1 || d == 2)
    requires if d == 1 then !(CORES <= args[0]) else CORES <= args[0]
    ensures IsValue(args, d + i) <==> IsValue(args[d..], i)
  {
    assert args[..d + i][d..] == args[d..][..i];
    if d == 1 {
      TrailingFirst(args[..d + i]);
    } else {
      TrailingPair(args[..d + i]);
    }
  }

  lemma {:induction false} KeptShift(args: seq<string>, d: nat, n: nat)
    requires d + n <= |args| && (d == 1 || d == 2)
    requires if d == 1 then !(CORES <= args[0]) else CORES <= args[0]
    ensures Kept(args, d + n) == Kept(args, d) + Kept(args[d..], n)
  {
    if n > 0 {
      KeptShift(args, d, n - 1);
      ValueShift(args, d, n - 1);
    }
  }

  lemma {:induction false} LastShift(args: seq<string>, d: nat, n: nat)
    requires d + n <= |args| && (d == 1 || d == 2)
    requires if d == 1 then !(CORES <= args[0]) else CORES <= args[0]
    ensures LastValue(args, d + n) ==
            if LastValue(args[d..], n).Some? then LastValue(args[d..], n) else LastValue(args, d)
  {
    if n > 0 {
      LastShift(args, d, n - 1);
      ValueShift(args, d, n - 1);
    }
  }

  lemma {:induction false} KeptFirst(args: seq<string>)
    requires args != []
    ensures Kept(args, 1) == if EBBOS <= args[0] then [] else [args[0]]
    ensures LastValue(args, 1) == None
    ensures |args| > 1 && CORES <= args[0] ==> Kept(args, 2) == [] && LastValue(args, 2) == Some(args[1])
  {
    assert args[..0] == [];
    if |args| > 1 && CORES <= args[0] {
      assert args[..1] == [args[0]] && [args[0]][..0] == [];
      assert CORES[..6] == EBBOS;
    }
  }

  /** Argument by argument, in order: those are kept that neither begin with -ebbos nor are the
      value of an -ebbos_cores; the number of cores is taken from the last value. */
  lemma {:induction false} StripIs(args: seq<string>)
    ensures Strip(args) == Kept(args, |args|) && CoresArg(args) == LastValue(args, |args|)
  {
    if args != [] {
      KeptFirst(args);
      if CORES <= args[0] {
        assert CORES[..6] == EBBOS;
        if |args| > 1 {
          KeptShift(args, 2, |args| - 2);
          LastShift(args, 2, |args| - 2);
          StripIs(args[2..]);
        }
      } else {
        KeptShift(args, 1, |args| - 1);
        LastShift(args, 1, |args| - 1);
        StripIs(args[1..]);
      }
    }
  }

  /** Strings one after the other, each with its NUL. */
  function Flat(xs: seq<string>): string {
    if xs == [] then "" else xs[0] + [NUL] + Flat(xs[1..])
  }

  function Serialize(args: seq<string>, env: seq<string>): string
    requires |args| < 0x8000_0000
  {
    IntBytes(|args|) + Flat(args) + Flat(env)
  }

  lemma {:induction false} StripShorter(args: seq<string>)
    ensures |Strip(args)| <= |args| && |Flat(Strip(args))| <= |Flat(args)|
  {
    if args == [] {
    } else if CORES <= args[0] && |args| > 1 {
      StripShorter(args[2..]);
      assert args[1..][1..] == args[2..];
    } else {
      StripShorter(args[1..]);
      assert ([args[0]] + Strip(args[1..]))[1..] == Strip(args[1..]);
    }
  }

  lemma {:induction false} FlatConcat(xs: seq<string>, ys: seq<string>)
    ensures Flat(xs + ys) == Flat(xs) + Flat(ys)
  {
    if xs == [] {
      assert xs + ys == ys;
    } else {
      FlatConcat(xs[1..], ys);
      assert (xs + ys)[1..] == xs[1..] + ys;
    }
  }

  // ----- startinfo

  /** stpcpy: copies the string with its NUL and returns where the NUL is. */
  method StpCpy(data: array<char>, cur: nat, s: string) returns (end: nat)
    requires cur + |s| + 1 <= data.Length
    modifies data
    ensures end == cur + |s|
    ensures data[..end + 1] == old(data[..cur]) + (s + [NUL])
  {
    var i := 0;
    while i < |s|
      invariant i <= |s|
      invariant data[..cur + i] == old(data[..cur]) + s[..i]
    {
      data[cur + i] := s[i];
      i := i + 1;
    }
    data[cur + i] := NUL;
    end := cur + i;
  }

  /** The bytes that strlen(x) + 1 over all strings adds up to. */
  method FlatSize(xs: seq<string>) returns (s: nat)
    ensures s == |Flat(xs)|
  {
    s := 0;
    var i := 0;
    while i < |xs|
      invariant i <= |xs| && s + |Flat(xs[i..])| == |Flat(xs)|
    {
      assert xs[i..][0] == xs[i] && xs[i..][1..] == xs[i + 1..];
      s := s + |xs[i]| + 1;
      i := i + 1;
    }
  }

  datatype Info = Crash | Info(data: string, size: nat, room: nat, cores: Option<string>)

  /** startinfo: the buffer holds the stripped arguments and the environment; the size that is
      computed by subtraction is the number of bytes written and at most the allocated size; the
      code crashes exactly on a dangling -ebbos_cores. */
  method StartInfo(argv: seq<string>, env: seq<string>) returns (r: Info)
    requires |argv| < 0x8000_0000
    ensures r == Crash <==> Dangling(argv)
    ensures |Strip(argv)| <= |argv|
    ensures r != Crash ==>
              && r.data == Serialize(Strip(argv), env) && r.cores == CoresArg(argv)
              && r.size == |r.data| == 4 + |Flat(Strip(argv))| + |Flat(env)|
              && r.size <= r.room == 4 + |Flat(argv)| + |Flat(env)|
  {
    StripShorter(argv);
    var argsSize := FlatSize(argv);
    var envSize := FlatSize(env);
    var s := 4 + argsSize + envSize;
    var data := new char[s];
    var ok, cur, cores := false, 4, None;
    ok, cur, s, cores := WriteArgs(data, argv, s, envSize);
    if !ok {
      return Crash;
    }
    cur := WriteEnv(data, cur, env);
    assert s == cur;   // the source's own assertion
    r := Info(data[..s], s, data.Length, cores);
  }

  /** The strip loop: non-EBBOS arguments are copied, the others are taken out of the size
      and of the count in the first bytes of the buffer. */
  method WriteArgs(data: array<char>, argv: seq<string>, total: nat, ghost envSize: nat)
    returns (ok: bool, cur: nat, s: nat, cores: Option<string>)
    requires |argv| < 0x8000_0000
    requires total == data.Length == 4 + |Flat(argv)| + envSize
    modifies data
    ensures ok <==> !Dangling(argv)
    ensures |Strip(argv)| <= |argv|
    ensures ok ==>
              && cores == CoresArg(argv)
              && cur == 4 + |Flat(Strip(argv))| && cur + envSize == s <= data.Length
              && data[..cur] == IntBytes(|Strip(argv)|) + Flat(Strip(argv))
  {
    s, cores, cur := total, None, 4;
    var argc := |argv|;
    ghost var out: string := "";
    PutInt(data, argc, out);
    var i := 0;
    StripShorter(argv);
    while i < |argv|
      invariant i <= |argv| && 0 <= argc <= |argv| && cur == 4 + |out|
      invariant Fits(argv, i, cur, s, envSize, data.Length)
      invariant data[..cur] == IntBytes(argc) + out
      invariant Remaining(argv, i, argc, out, cores)
    {
      if EBBOS <= argv[i] {
        ok, i, argc, s, cores := SkipArg(data, argv, i, argc, cur, s, envSize, out, cores);
        if !ok {
          return;
        }
      } else {
        cur, out := CopyArg(data, argv, i, argc, cur, s, envSize, out, cores);
        i := i + 1;
      }
    }
    ok := true;
  }

  /** The bytes written and those still to come make up the current size. */
  ghost predicate Fits(argv: seq<string>, i: nat, cur: nat, s: nat, envSize: nat, length: nat)
    requires i <= |argv|
  {
    cur + |Flat(argv[i..])| + envSize == s <= length
  }

  /** One turn of the strip loop on an -ebbos argument. */
  method SkipArg(data: array<char>, argv: seq<string>, i: nat, argc: nat, ghost cur: nat, s: nat, ghost envSize: nat,
                 ghost out: string, cores: Option<string>)
    returns (ok: bool, next: nat, argc': nat, s': nat, cores': Option<string>)
    requires i < |argv| && EBBOS <= argv[i] && argc <= |argv| < 0x8000_0000 && cur == 4 + |out|
    requires Fits(argv, i, cur, s, envSize, data.Length)
    requires data[..cur] == IntBytes(argc) + out
    requires Remaining(argv, i, argc, out, cores)
    modifies data
    ensures ok ==> i < next <= |argv| && argc' <= argc
    ensures ok ==> Fits(argv, next, cur, s', envSize, data.Length)
    ensures ok ==> data[..cur] == IntBytes(argc') + out
    ensures ok ==> Remaining(argv, next, argc', out, cores')
    ensures !ok ==> Dangling(argv)
  {
    ok, argc', s', cores' := true, argc, s, cores;
    var osargs := if CORES <= argv[i] then 2 else 1;
    next := i + osargs;
    if next > |argv| {
      RestOf(argv, i);
      ok := false;
    } else {
      SkipRemaining(argv, i, argc, out, cores);
      if osargs == 2 {
        cores' := Some(argv[i + 1]);
      }
      s' := TakeOut(argv, i, osargs, s);
      argc' := argc - osargs;
      assert data[4..cur] == data[..cur][4..] == out;
      PutInt(data, argc', out);
    }
  }

  /** One turn of the strip loop on any other argument. */
  method CopyArg(data: array<char>, argv: seq<string>, i: nat, ghost argc: nat, cur: nat, ghost s: nat,
                 ghost envSize: nat, ghost out: string, ghost cores: Option<string>)
    returns (end: nat, ghost out': string)
    requires i < |argv| && !(EBBOS <= argv[i]) && argc < 0x8000_0000 && cur == 4 + |out|
    requires Fits(argv, i, cur, s, envSize, data.Length)
    requires data[..cur] == IntBytes(argc) + out
    requires Remaining(argv, i, argc, out, cores)
    modifies data
    ensures end == 4 + |out'| && Fits(argv, i + 1, end, s, envSize, data.Length)
    ensures data[..end] == IntBytes(argc) + out'
    ensures Remaining(argv, i + 1, argc, out', cores)
  {
    CopyRemaining(argv, i, argc, out, cores);
    RestOf(argv, i);
    end := StpCpy(data, cur, argv[i]);
    end := end + 1;
    out' := out + (argv[i] + [NUL]);
  }

  /** What is left to do at argument i, with argc counted down and out written so far. */
  ghost predicate Remaining(argv: seq<string>, i: nat, argc: int, out: string, cores: Option<string>)
    requires i <= |argv|
  {
    && Dangling(argv[i..]) == Dangling(argv)
    && argc + i >= |argv| && |Strip(argv)| == argc + i - |argv| + |Strip(argv[i..])|
    && out + Flat(Strip(argv[i..])) == Flat(Strip(argv))
    && CoresArg(argv) == if CoresArg(argv[i..]).Some? then CoresArg(argv[i..]) else cores
  }

  lemma {:induction false} SkipRemaining(argv: seq<string>, i: nat, argc: int, out: string, cores: Option<string>)
    requires i < |argv| && argc <= |argv| && Remaining(argv, i, argc, out, cores) && EBBOS <= argv[i]
    requires CORES <= argv[i] ==> i + 1 < |argv|
    ensures var n := if CORES <= argv[i] then 2 else 1;
            && argc >= n && Remaining(argv, i + n, argc - n, out, if n == 2 then Some(argv[i + 1]) else cores)
  {
    RestOf(argv, i);
    StripShorter(argv);
    StripShorter(argv[i..][1..]);
    if CORES <= argv[i] {
      StripShorter(argv[i..][2..]);
    }
  }

  lemma {:induction false} CopyRemaining(argv: seq<string>, i: nat, argc: int, out: string, cores: Option<string>)
    requires i < |argv| && Remaining(argv, i, argc, out, cores) && !(EBBOS <= argv[i])
    ensures Remaining(argv, i + 1, argc, out + (argv[i] + [NUL]), cores)
  {
    RestOf(argv, i);
    var rest := Strip(argv[i + 1..]);
    assert ([argv[i]] + rest)[1..] == rest;
    assert Flat([argv[i]] + rest) == argv[i] + [NUL] + Flat(rest);
    assert CORES[..6] == EBBOS;
  }

  /** The inner loop: strlen + 1 of each argument that is taken out comes off the size. */
  method TakeOut(argv: seq<string>, i: nat, osargs: nat, s: nat) returns (r: nat)
    requires 1 <= osargs <= 2 && i + osargs <= |argv| && |Flat(argv[i..])| <= s
    ensures r + |Flat(argv[i..])| == s + |Flat(argv[i + osargs..])|
  {
    r := s;
    var j := 0;
    while j < osargs
      invariant j <= osargs && r + |Flat(argv[i..])| == s + |Flat(argv[i + j..])|
    {
      RestOf(argv, i + j);
      r := r - (|argv[i + j]| + 1);
      j := j + 1;
    }
  }

  lemma {:induction false} RestOf(xs: seq<string>, i: nat)
    requires i < |xs|
    ensures xs[i..][0] == xs[i] && xs[i..][1..] == xs[i + 1..]
    ensures i + 1 < |xs| ==> xs[i..][2..] == xs[i + 2..]
  {
  }

  method WriteEnv(data: array<char>, start: nat, env: seq<string>) returns (cur: nat)
    requires start + |Flat(env)| <= data.Length
    modifies data
    ensures cur == start + |Flat(env)|
    ensures data[..cur] == old(data[..start]) + Flat(env)
  {
    cur := start;
    var i := 0;
    while i < |env|
      invariant i <= |env| && start <= cur
      invariant cur + |Flat(env[i..])| == start + |Flat(env)|
      invariant data[..cur] + Flat(env[i..]) == old(data[..start]) + Flat(env)
    {
      RestOf(env, i);
      cur := StpCpy(data, cur, env[i]);
      cur := cur + 1;
      i := i + 1;
    }
  }

  /** A store of an int into the first four bytes; out is what was written behind them. */
  method PutInt(data: array<char>, n: nat, ghost out: string)
    requires 4 + |out| <= data.Length && n < 0x8000_0000 && data[4..4 + |out|] == out
    modifies data
    ensures data[..4 + |out|] == IntBytes(n) + out
  {
    var b := IntBytes(n);
    data[0], data[1], data[2], data[3] := b[0], b[1], b[2], b[3];
  }

  // ----- parsing

  /** Where a scan for the next NUL from p stops; the length if there is none. */
  function ScanEnd(si: string, p: nat): (q: nat)
    requires p <= |si|
    ensures p <= q <= |si| && (q < |si| ==> si[q] == NUL)
    ensures forall i :: p <= i < q ==> si[i] != NUL
    decreases |si| - p
  {
    if p == |si| || si[p] == NUL then p else ScanEnd(si, p + 1)
  }

  /** The start of every string from p on, if each of them ends inside the buffer. */
  function Starts(si: string, p: nat): Option<seq<nat>>
    requires p <= |si|
    decreases |si| - p
  {
    if p == |si| then Some([])
    else
      var q := ScanEnd(si, p);
      if q == |si| then None
      else
        var rest := Starts(si, q + 1);
        if rest.None? then None else Some([p] + rest.value)
  }

  /** The C string that a pointer into the buffer denotes. */
  function StringAt(si: string, p: nat): string
    requires p <= |si|
  {
    si[p..ScanEnd(si, p)]
  }

  /** The pointer lies in the buffer and denotes the string. */
  predicate Denotes(si: string, p: nat, x: string) {
    p <= |si| && StringAt(si, p) == x
  }

  /** What initArgvAndEnv leaves in its object, pointers as offsets into the buffer: argc,
      argv, environc, the entries written to environ, how many slots were allocated for
      them, and the slot that receives the final NULL. Or a scan left the buffer, or no block
      can be large enough for argv. */
  datatype Parsed =
    | Parsed(argc: int, argv: seq<nat>, environc: int, environ: seq<nat>, slots: nat, nullSlot: nat)
    | Nothing
    | Fault

  /** A scan of the parser: the next NUL, or off the end of the buffer. */
  method Scan(si: string, p: nat) returns (q: nat)
    requires p <= |si|
    ensures q == ScanEnd(si, p)
  {
    q := p;
    while q < |si| && si[q] != NUL
      invariant p <= q <= |si| && ScanEnd(si, p) == ScanEnd(si, q)
    {
      q := q + 1;
    }
  }

  /** The request for argc pointers, an int times a size_t, is one that no block can serve: the
      adjusted size does not fit a tag. */
  predicate Refused(argc: int) {
    MemMgrPrimSimple.AdjustedSize((argc * WORD) % POW64) >= POW63
  }

  /** Of the negative counts -1 and -2 are served, because the adjustment wraps around. */
  lemma {:induction false} RefusedIff(argc: int)
    requires -0x8000_0000 <= argc < 0x8000_0000
    ensures Refused(argc) <==> argc < -2
  {
    var request := (argc * WORD) % POW64;
    assert request == if argc < 0 then POW64 + argc * WORD else argc * WORD;
    assert request % WORD == 0;
  }

  /** Parsing succeeds exactly on a buffer that holds at least as many whole strings as its
      count says and nothing else, or whose count is -1 or -2 and stands for none; then argv
      and environ point to them in order, the source's final assertion holds, environc is one
      less than the number of environment strings, and the NULL goes one slot behind those
      allocated. */
  method InitArgvAndEnv(si: string) returns (r: Parsed)
    ensures r.Nothing? <==> |si| < 4
    ensures |si| >= 4 ==>
              (r.Parsed? <==> Starts(si, 4).Some? && -2 <= IntOf(si) <= |Starts(si, 4).value|)
    ensures r.Parsed? ==>
              var starts, args := Starts(si, 4).value, if IntOf(si) < 0 then 0 else IntOf(si);
              && r.argc == IntOf(si) && r.argv == starts[..args] && r.environ == starts[args..]
              && r.environc == |starts| - args - 1
              && r.slots == |starts| - args && r.nullSlot == r.slots
  {
    if |si| < 4 {
      return Nothing;
    }
    var argc := IntOf(si);
    RefusedIff(argc);
    if Refused(argc) {
      return Fault;
    }
    var ok, data, argv := ParseArgv(si, argc);
    if !ok {
      return Fault;
    }
    assert Starts(si, 4).Some? ==>
             Starts(si, 4).value[..|argv|] == argv && Starts(si, 4).value[|argv|..] == Starts(si, data).value;
    var edata, environc := CountEnviron(si, data);
    if environc.None? {
      return Fault;
    }
    var slots: int := environc.value;
    var environ, i := FillEnviron(si, data, slots - 1);
    // the source's own assertion
    assert edata == |si| && i - 1 == slots - 1;
    r := Parsed(argc, argv, slots - 1, environ, slots, i);
  }

  /** Between two places of a scan: the strings from the first are those found on the way and
      those from the second on. */
  ghost predicate Scanned(si: string, start: nat, found: seq<nat>, at: nat)
    requires start <= |si| && at <= |si|
  {
    && (Starts(si, start).Some? <==> Starts(si, at).Some?)
    && (Starts(si, start).Some? ==> Starts(si, start).value == found + Starts(si, at).value)
  }

  /** One more string, or the end of the buffer. */
  lemma {:induction false} ScanOne(si: string, start: nat, found: seq<nat>, at: nat)
    requires start <= |si| && at <= |si| && Scanned(si, start, found, at)
    ensures var q := ScanEnd(si, at);
            && (q < |si| ==> Scanned(si, start, found + [at], q + 1))
            && (q == |si| && at < |si| ==> Starts(si, start).None?)
            && (at == |si| ==> Starts(si, start) == Some(found))
  {
    var q := ScanEnd(si, at);
    if q < |si| && Starts(si, q + 1).Some? {
      var rest := Starts(si, q + 1).value;
      assert Starts(si, at) == Some([at] + rest);
      assert found + ([at] + rest) == found + [at] + rest;
    } else if at == |si| {
      assert found + Starts(si, at).value == found;
    }
  }

  method ParseArgv(si: string, argc: int) returns (ok: bool, data: nat, argv: seq<nat>)
    requires |si| >= 4
    ensures ok ==> 4 <= data <= |si| && Scanned(si, 4, argv, data)
    ensures ok ==> |argv| == if argc < 0 then 0 else argc
    ensures !ok ==> Starts(si, 4).None? || argc > |Starts(si, 4).value|
  {
    data, argv := 4, [];
    var i := 0;
    while i < argc
      invariant 0 <= i && (argc < 0 ==> i == 0) && (argc >= 0 ==> i <= argc)
      invariant 4 <= data <= |si| && |argv| == i
      invariant Scanned(si, 4, argv, data)
    {
      ScanOne(si, 4, argv, data);
      argv := argv + [data];
      var q := Scan(si, data);
      if q == |si| {
        return false, data, argv;
      }
      data := q + 1;
      i := i + 1;
    }
    ok := true;
  }

  /** The first pass over the environment: it ends at the end of the buffer or runs over it. */
  method CountEnviron(si: string, data: nat) returns (edata: nat, environc: Option<nat>)
    requires data <= |si|
    ensures environc.Some? <==> Starts(si, data).Some?
    ensures environc.Some? ==> environc.value == |Starts(si, data).value| && edata == |si|
  {
    edata := data;
    var n := 0;
    ghost var found := [];
    while edata < |si|
      invariant data <= edata <= |si| && |found| == n
      invariant Scanned(si, data, found, edata)
      decreases |si| - edata
    {
      ScanOne(si, data, found, edata);
      found := found + [edata];
      var q := Scan(si, edata);
      if q == |si| {
        return q, None;
      }
      edata := q + 1;
      n := n + 1;
    }
    ScanOne(si, data, found, edata);
    environc := Some(n);
  }

  /** The second pass; it returns the index at which the source stores the final NULL. */
  method FillEnviron(si: string, data: nat, environc: int) returns (environ: seq<nat>, i: int)
    requires data <= |si| && Starts(si, data).Some? && |Starts(si, data).value| == environc + 1
    ensures environ == Starts(si, data).value && i == environc + 1
  {
    var edata := data;
    environ, i := [], 0;
    while i <= environc
      invariant i <= environc + 1 && data <= edata <= |si| && |environ| == i
      invariant Scanned(si, data, environ, edata)
    {
      ScanOne(si, data, environ, edata);
      environ := environ + [edata];
      edata := Scan(si, edata);
      edata := edata + 1;
      i := i + 1;
    }
  }

  // ----- the round trip

  lemma {:induction false} ScanEndIs(si: string, p: nat, q: nat)
    requires p <= q < |si| && si[q] == NUL && forall i :: p <= i < q ==> si[i] != NUL
    ensures ScanEnd(si, p) == q
    decreases q - p
  {
    if p < q {
      ScanEndIs(si, p + 1, q);
    }
  }

  lemma {:induction false} ScanFlat(si: string, p: nat, x: string)
    requires p + |x| + 1 <= |si| && si[p..p + |x| + 1] == x + [NUL] && CString(x)
    ensures ScanEnd(si, p) == p + |x|
  {
    var y := si[p..p + |x| + 1];
    forall i | p <= i < p + |x| ensures si[i] != NUL {
      assert si[i] == y[i - p] == x[i - p];
    }
    assert si[p + |x|] == y[|x|];
    ScanEndIs(si, p, p + |x|);
  }

  /** Where strings laid end to end from p begin. */
  function Offsets(xs: seq<string>, p: nat): (r: seq<nat>)
    ensures |r| == |xs|
  {
    if xs == [] then [] else [p] + Offsets(xs[1..], p + |xs[0]| + 1)
  }

  /** The first of several strings laid end to end. */
  lemma {:induction false} FirstFlat(si: string, p: nat, xs: seq<string>)
    requires p <= |si| && si[p..] == Flat(xs) && xs != [] && CString(xs[0])
    ensures var q := p + |xs[0]|;
            && q < |si| && ScanEnd(si, p) == q && StringAt(si, p) == xs[0]
            && si[q + 1..] == Flat(xs[1..])
  {
    var x := xs[0];
    var q := p + |x|;
    assert si[p..][..|x| + 1] == x + [NUL];
    assert si[p..q + 1] == x + [NUL];
    ScanFlat(si, p, x);
    assert si[p..q] == (x + [NUL])[..|x|];
    assert si[q + 1..] == si[p..][|x| + 1..];
  }

  /** From p on the buffer holds these strings and nothing else. */
  ghost predicate LaidOut(si: string, p: nat, xs: seq<string>) {
    p <= |si| && si[p..] == Flat(xs) && CStrings(xs)
  }

  lemma {:induction false} RestLaidOut(si: string, p: nat, xs: seq<string>)
    requires LaidOut(si, p, xs) && xs != []
    ensures LaidOut(si, p + |xs[0]| + 1, xs[1..])
  {
    FirstFlat(si, p, xs);
  }

  lemma {:induction false} FirstEnds(si: string, p: nat, xs: seq<string>)
    requires LaidOut(si, p, xs) && xs != []
    ensures p + |xs[0]| < |si| && ScanEnd(si, p) == p + |xs[0]|
  {
    FirstFlat(si, p, xs);
  }

  lemma {:induction false} StartsCons(si: string, p: nat, q: nat)
    requires p < |si| && ScanEnd(si, p) == q < |si|
    ensures Starts(si, p) == if Starts(si, q + 1).None? then None else Some([p] + Starts(si, q + 1).value)
  {
  }

  lemma {:induction false} OffsetsCons(xs: seq<string>, p: nat)
    requires xs != []
    ensures Offsets(xs, p) == [p] + Offsets(xs[1..], p + |xs[0]| + 1)
  {
  }

  /** Scans from p on stop at the ends of strings of these lengths, the last one at the end. */
  ghost predicate EndsOf(si: string, p: nat, xs: seq<string>)
    decreases |xs|
  {
    if xs == [] then p == |si|
    else p + |xs[0]| < |si| && ScanEnd(si, p) == p + |xs[0]| && EndsOf(si, p + |xs[0]| + 1, xs[1..])
  }

  lemma {:induction false} LaidOutEnds(si: string, p: nat, xs: seq<string>)
    requires LaidOut(si, p, xs)
    ensures EndsOf(si, p, xs)
    decreases |xs|
  {
    if xs == [] {
      assert p == |si|;
    } else {
      FirstEnds(si, p, xs);
      RestLaidOut(si, p, xs);
      LaidOutEnds(si, p + |xs[0]| + 1, xs[1..]);
    }
  }

  lemma {:induction false} EndsStarts(si: string, p: nat, xs: seq<string>)
    requires p <= |si| && EndsOf(si, p, xs)
    ensures Starts(si, p) == Some(Offsets(xs, p))
    decreases |xs|
  {
    if xs != [] {
      EndsStarts(si, p + |xs[0]| + 1, xs[1..]);
      StartsCons(si, p, p + |xs[0]|);
      OffsetsCons(xs, p);
    }
  }

  /** Whole strings laid end to end are all found again. */
  lemma {:induction false} StartsFlat(si: string, p: nat, xs: seq<string>)
    requires LaidOut(si, p, xs)
    ensures Starts(si, p) == Some(Offsets(xs, p))
  {
    LaidOutEnds(si, p, xs);
    EndsStarts(si, p, xs);
  }

  lemma {:induction false} FirstString(si: string, p: nat, xs: seq<string>)
    requires LaidOut(si, p, xs) && xs != []
    ensures Denotes(si, p, xs[0])
  {
    FirstFlat(si, p, xs);
  }

  /** Where string i begins: behind the strings before it. */
  lemma {:induction false} OffsetsTail(xs: seq<string>, p: nat, i: nat)
    requires i < |xs|
    ensures Offsets(xs, p)[i] == if i == 0 then p else Offsets(xs[1..], p + |xs[0]| + 1)[i - 1]
    ensures i > 0 ==> xs[i] == xs[1..][i - 1]
  {
  }

  lemma {:induction false} StringsFlat(si: string, p: nat, xs: seq<string>, i: nat, o: nat)
    requires LaidOut(si, p, xs) && i < |xs| && o == Offsets(xs, p)[i]
    ensures Denotes(si, o, xs[i])
    decreases i
  {
    OffsetsTail(xs, p, i);
    if i == 0 {
      FirstString(si, p, xs);
    } else {
      RestLaidOut(si, p, xs);
      StringsFlat(si, p + |xs[0]| + 1, xs[1..], i - 1, o);
    }
  }

  lemma {:induction false} SerializedStarts(args: seq<string>, env: seq<string>)
    requires |args| < 0x8000_0000 && CStrings(args) && CStrings(env)
    ensures IntOf(Serialize(args, env)) == |args|
    ensures Serialize(args, env)[4..] == Flat(args + env) && CStrings(args + env)
    ensures Starts(Serialize(args, env), 4) == Some(Offsets(args + env, 4))
  {
    IntRoundTrip(|args|);
    FlatConcat(args, env);
    assert Serialize(args, env)[4..] == Flat(args + env);
    StartsFlat(Serialize(args, env), 4, args + env);
  }

  lemma {:induction false} SerializedStrings(args: seq<string>, env: seq<string>)
    requires |args| < 0x8000_0000 && CStrings(args) && CStrings(env)
    ensures forall i :: 0 <= i < |args| + |env| ==>
              Denotes(Serialize(args, env), Offsets(args + env, 4)[i], (args + env)[i])
  {
    SerializedStarts(args, env);
    forall i | 0 <= i < |args| + |env|
      ensures Denotes(Serialize(args, env), Offsets(args + env, 4)[i], (args + env)[i])
    {
      StringsFlat(Serialize(args, env), 4, args + env, i, Offsets(args + env, 4)[i]);
    }
  }

  /** The round trip: a buffer made by startinfo parses into the stripped arguments and the
      environment, string by string and in order. */
  lemma {:induction false} RoundTrip(argv: seq<string>, env: seq<string>)
    requires |argv| < 0x8000_0000 && CStrings(argv) && CStrings(env)
    ensures |Strip(argv)| <= |argv|
    ensures var args := Strip(argv);
            var si := Serialize(args, env);
            && IntOf(si) == |args|
            && Starts(si, 4).Some? && |Starts(si, 4).value| == |args| + |env|
            && forall i :: 0 <= i < |args| + |env| ==>
                 Denotes(si, Starts(si, 4).value[i], if i < |args| then args[i] else env[i - |args|])
  {
    StripShorter(argv);
    StripKeeps(argv);
    SerializedStarts(Strip(argv), env);
    SerializedStrings(Strip(argv), env);
  }

  lemma {:induction false} RoundTripParts(argv: seq<string>, env: seq<string>, starts: seq<nat>)
    requires |argv| < 0x8000_0000 && CStrings(argv) && CStrings(env)
    requires |Strip(argv)| <= |argv| && Starts(Serialize(Strip(argv), env), 4) == Some(starts)
    ensures var args := Strip(argv);
            var si := Serialize(args, env);
            && IntOf(si) == |args| && |starts| == |args| + |env|
            && (forall i :: 0 <= i < |args| ==> Denotes(si, starts[..|args|][i], args[i]))
            && (forall i :: 0 <= i < |env| ==> Denotes(si, starts[|args|..][i], env[i]))
  {
    RoundTrip(argv, env);
    var n := |Strip(argv)|;
    assert forall i :: 0 <= i < n ==> starts[..n][i] == starts[i];
    forall i | 0 <= i < |env| ensures Denotes(Serialize(Strip(argv), env), starts[n..][i], env[i]) {
      assert starts[n..][i] == starts[n + i];
    }
  }

  /** From the front end's argv to the argv and environ of the object that parses: unless an
      -ebbos_cores dangles, parsing succeeds and every pointer denotes its string. */
  method HandOver(argv: seq<string>, env: seq<string>) returns (info: Info, r: Parsed)
    requires |argv| < 0x8000_0000 && CStrings(argv) && CStrings(env)
    ensures info == Crash <==> Dangling(argv)
    ensures info != Crash ==>
              var args := Strip(argv);
              && r.Parsed? && r.argc == |args| == |r.argv| && |r.environ| == |env|
              && (forall i :: 0 <= i < |args| ==> Denotes(info.data, r.argv[i], args[i]))
              && (forall i :: 0 <= i < |env| ==> Denotes(info.data, r.environ[i], env[i]))
  {
    info := StartInfo(argv, env);
    if info == Crash {
      return info, Nothing;
    }
    r := InitArgvAndEnv(info.data);
    RoundTrip(argv, env);
    RoundTripParts(argv, env, Starts(info.data, 4).value);
  }

  /** Stripping keeps arguments that are not -ebbos arguments, and only such. */
  lemma {:induction false} StripKeeps(argv: seq<string>)
    requires CStrings(argv)
    ensures CStrings(Strip(argv))
    ensures forall i :: 0 <= i < |Strip(argv)| ==> !(EBBOS <= Strip(argv)[i])
  {
    if argv == [] {
    } else if CORES <= argv[0] {
      if |argv| > 1 { StripKeeps(argv[2..]); }
    } else {
      StripKeeps(argv[1..]);
    }
  }

  /** Stripping changes nothing exactly when there is no -ebbos argument to strip. */
  lemma {:induction false} StripIdentity(argv: seq<string>)
    ensures Strip(argv) == argv <==> forall i :: 0 <= i < |argv| ==> !(EBBOS <= argv[i])
  {
    if argv != [] {
      assert CORES[..6] == EBBOS;
      StripShorter(argv[1..]);
      if |argv| > 1 { StripShorter(argv[2..]); }
      if !(EBBOS <= argv[0]) {
        StripIdentity(argv[1..]);
        assert ([argv[0]] + Strip(argv[1..]))[1..] == Strip(argv[1..]);
        assert forall i :: 0 < i < |argv| ==> argv[i] == argv[1..][i - 1];
        assert forall i :: 0 <= i < |argv| - 1 ==> argv[1..][i] == argv[i + 1];
      } else {
        assert |Strip(argv)| < |argv|;
      }
    }
  }
}
