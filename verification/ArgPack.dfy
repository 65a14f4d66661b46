/** Argument vectors as flat byte buffers (util.h), and the program value in front of them that
    Execute adds (tinyoslib.c). A C string is the bytes before the first zero; a pointer into a
    buffer is an offset. */
module ArgPack {

  type Byte = b: int | 0 <= b < 256

  // ----- the format -----

  /** The string that starts at the front of a buffer. */
  function FirstString(b: seq<Byte>): seq<Byte> {
    if b == [] || b[0] == 0 then [] else [b[0]] + FirstString(b[1..])
  }

  /** What follows that string and its zero. */
  function AfterString(b: seq<Byte>): seq<Byte> {
    if b == [] then [] else if b[0] == 0 then b[1..] else AfterString(b[1..])
  }

  function Pack(v: seq<seq<Byte>>): seq<Byte> {
    if v == [] then [] else v[0] + [0] + Pack(v[1..])
  }

  function Unpack(n: nat, b: seq<Byte>): (v: seq<seq<Byte>>)
    ensures |v| == n
  {
    if n == 0 then [] else [FirstString(b)] + Unpack(n - 1, AfterString(b))
  }

  function Zeros(b: seq<Byte>): nat {
    if b == [] then 0 else (if b[0] == 0 then 1 else 0) + Zeros(b[1..])
  }

  predicate NulFree(s: seq<Byte>) {
    0 !in s
  }

  predicate Strings(v: seq<seq<Byte>>) {
    forall i :: 0 <= i < |v| ==> NulFree(v[i])
  }

  // ----- what packing and unpacking do -----

  lemma {:induction false} StringInFront(s: seq<Byte>, rest: seq<Byte>)
    requires NulFree(s)
    ensures FirstString(s + [0] + rest) == s && AfterString(s + [0] + rest) == rest
  {
    if s != [] {
      assert s[0] in s && forall x :: x in s[1..] ==> x in s;
      StringInFront(s[1..], rest);
      assert (s + [0] + rest)[1..] == s[1..] + [0] + rest;
    }
  }

  lemma {:induction false} FirstStringIsNulFree(b: seq<Byte>)
    ensures NulFree(FirstString(b)) && |FirstString(b)| <= |b|
    ensures 0 in b ==> b == FirstString(b) + [0] + AfterString(b)
    ensures 0 !in b ==> FirstString(b) == b && AfterString(b) == []
  {
    if b != [] && b[0] != 0 {
      FirstStringIsNulFree(b[1..]);
      assert b == [b[0]] + b[1..];
    } else if b != [] {
      assert b == [0] + b[1..];
    }
  }

  lemma {:induction false} ZerosAppend(a: seq<Byte>, b: seq<Byte>)
    ensures Zeros(a + b) == Zeros(a) + Zeros(b)
  {
    if a == [] {
      assert a + b == b;
    } else {
      ZerosAppend(a[1..], b);
      assert (a + b)[1..] == a[1..] + b;
    }
  }

  lemma {:induction false} NoZeros(s: seq<Byte>)
    ensures NulFree(s) <==> Zeros(s) == 0
  {
    if s != [] {
      NoZeros(s[1..]);
      assert s == [s[0]] + s[1..];
    }
  }

  /** For strings, unpacking gives the packed vector back, whatever follows it in the buffer; and
      the number of strings is the number of zero bytes. */
  lemma {:induction false} PackThenUnpack(v: seq<seq<Byte>>, rest: seq<Byte>)
    requires Strings(v)
    ensures Unpack(|v|, Pack(v) + rest) == v && Zeros(Pack(v)) == |v|
  {
    if v != [] {
      PackThenUnpack(v[1..], rest);
      StringInFront(v[0], Pack(v[1..]) + rest);
      assert Pack(v) + rest == v[0] + [0] + (Pack(v[1..]) + rest);
      NoZeros(v[0]);
      ZerosAppend(v[0] + [0], Pack(v[1..]));
      ZerosAppend(v[0], [0]);
    }
  }

  lemma {:induction false} UnpackedAreStrings(n: nat, b: seq<Byte>)
    ensures Strings(Unpack(n, b))
  {
    if n > 0 {
      UnpackedAreStrings(n - 1, AfterString(b));
      FirstStringIsNulFree(b);
    }
  }

  /** The round trip holds for strings only: a zero byte inside one would be lost. */
  lemma RoundTripIsExact(v: seq<seq<Byte>>)
    ensures Unpack(|v|, Pack(v)) == v <==> Strings(v)
  {
    UnpackedAreStrings(|v|, Pack(v));
    if Strings(v) {
      PackThenUnpack(v, []);
      assert Pack(v) + [] == Pack(v);
    }
  }

  /** The other way round: a buffer that ends with a zero is what its strings pack to. */
  lemma {:induction false} UnpackThenPack(b: seq<Byte>)
    requires b == [] || b[|b| - 1] == 0
    ensures Pack(Unpack(Zeros(b), b)) == b
    decreases |b|
  {
    if b != [] {
      var s, rest := FirstString(b), AfterString(b);
      FirstStringIsNulFree(b);
      assert b[|b| - 1] in b;
      NoZeros(s);
      ZerosAppend(s + [0], rest);
      ZerosAppend(s, [0]);
      assert Zeros(b) == 1 + Zeros(rest);
      assert rest != [] ==> rest[|rest| - 1] == b[|b| - 1];
      UnpackThenPack(rest);
    }
  }

  // ----- the code -----

  ghost predicate Terminated(s: array<Byte>)
    reads s
  {
    0 in s[..]
  }

  ghost function Str(s: array<Byte>): seq<Byte>
    reads s
  {
    FirstString(s[..])
  }

  ghost function Strs(argv: seq<array<Byte>>): seq<seq<Byte>>
    reads argv
  {
    seq(|argv|, i requires 0 <= i < |argv| reads argv => Str(argv[i]))
  }

  /** A string in memory: `n` bytes that are not zero, and a zero. */
  lemma StringEnds(s: seq<Byte>, n: nat)
    requires n < |s| && s[n] == 0 && forall k :: 0 <= k < n ==> s[k] != 0
    ensures FirstString(s) == s[..n]
  {
    StringInFront(s[..n], s[n + 1..]);
    assert s == s[..n] + [0] + s[n + 1..];
  }

  method Strlen(s: array<Byte>) returns (n: nat)
    requires Terminated(s)
    ensures n < s.Length && s[..n] == Str(s) && s[n] == 0
  {
    n := 0;
    while s[n] != 0
      invariant n < s.Length && forall k :: 0 <= k < n ==> s[k] != 0
      decreases s.Length - n
    {
      n := n + 1;
      assert n < s.Length by {
        assert exists k :: 0 <= k < s.Length && s[k] == 0;
      }
    }
    StringEnds(s[..], n);
  }

  lemma {:induction false} PackLast(v: seq<seq<Byte>>, s: seq<Byte>)
    ensures Pack(v + [s]) == Pack(v) + s + [0]
  {
    if v == [] {
      assert v + [s] == [s];
      assert Pack([s]) == s + [0] + Pack([]);
    } else {
      PackLast(v[1..], s);
      assert (v + [s])[1..] == v[1..] + [s];
    }
  }

  lemma {:induction false} PackGrows(v: seq<seq<Byte>>, i: nat)
    requires i <= |v|
    ensures |Pack(v[..i])| <= |Pack(v)|
    ensures i < |v| ==> |Pack(v[..i])| + |v[i]| + 1 <= |Pack(v)|
  {
    if i > 0 {
      PackGrows(v[1..], i - 1);
      assert v[..i][1..] == v[1..][..i - 1];
    }
  }

  lemma NothingPacked(v: seq<seq<Byte>>)
    requires v == []
    ensures Pack(v) == []
  {
  }

  method ArgvLen(argv: seq<array<Byte>>) returns (l: nat)
    requires forall i :: 0 <= i < |argv| ==> Terminated(argv[i])
    ensures l == |Pack(Strs(argv))|
  {
    l := 0;
    ghost var v := Strs(argv);
    for i := 0 to |argv|
      invariant l == |Pack(v[..i])|
    {
      var n := Strlen(argv[i]);
      l := l + n + 1;
      PackLast(v[..i], v[i]);
      assert v[..i + 1] == v[..i] + [v[i]];
    }
    assert v[..|argv|] == v;
  }

  /** Copies one string with its zero, as the inner loop of `argvpack` does; returns the place
      after it, and the number of bytes that are not zero. */
  method CopyString(args: array<Byte>, start: nat, s: array<Byte>) returns (pos: nat, copied: nat)
    requires Terminated(s) && args != s && start + |Str(s)| + 1 <= args.Length
    modifies args
    ensures pos == start + |Str(s)| + 1 && copied == |Str(s)|
    ensures args[..] == old(args[..start]) + Str(s) + [0] + old(args[pos..])
  {
    hide FirstString;
    ghost var n, str, before := StrlenOf(s), Str(s), args[..];
    pos, copied := start, 0;
    while s[copied] != 0
      invariant copied <= n && pos == start + copied
      invariant args[..] == before[..start] + str[..copied] + before[pos..]
      decreases n - copied
    {
      assert s[copied] == str[copied];
      args[pos] := s[copied];
      pos, copied := pos + 1, copied + 1;
    }
    args[pos] := 0;
    pos := pos + 1;
  }

  ghost function StrlenOf(s: array<Byte>): (n: nat)
    requires Terminated(s)
    reads s
    ensures n < s.Length && s[n] == 0 && Str(s) == s[..n] && forall k :: 0 <= k < n ==> s[k] != 0
  {
    FirstStringIsNulFree(s[..]);
    var n := |Str(s)|;
    assert s[..] == Str(s) + [0] + AfterString(s[..]);
    assert forall k :: 0 <= k < n ==> s[k] == Str(s)[k] && s[k] in Str(s);
    n
  }

  /** Packs the strings from offset `start` of the buffer on; returns their length. */
  method ArgvPack(args: array<Byte>, start: nat, argv: seq<array<Byte>>) returns (l: nat)
    requires forall i :: 0 <= i < |argv| ==> Terminated(argv[i]) && argv[i] != args
    requires start + |Pack(Strs(argv))| <= args.Length
    modifies args
    ensures l == |Pack(Strs(argv))|
    ensures args[..] == old(args[..start]) + Pack(Strs(argv)) + old(args[start + l..])
  {
    hide Pack, FirstString;
    ghost var v := Strs(argv);
    NothingPacked(v[..0]);
    var argl, pos := 0, start;
    for i := 0 to |argv|
      invariant pos == start + |Pack(v[..i])| && argl + i == |Pack(v[..i])| && pos <= args.Length
      invariant Strs(argv) == v && forall k :: 0 <= k < |argv| ==> Terminated(argv[k])
      invariant args[..] == old(args[..start]) + Pack(v[..i]) + old(args[pos..])
    {
      PackGrows(v, i);
      assert v[i] == Str(argv[i]);
      ghost var before, from := args[..], pos;
      var copied;
      pos, copied := CopyString(args, pos, argv[i]);
      argl := argl + copied;
      PackLast(v[..i], v[i]);
      assert v[..i + 1] == v[..i] + [v[i]];
      assert before[..from] == old(args[..start]) + Pack(v[..i]);
      assert before[pos..] == old(args[pos..]);
    }
    assert v[..|argv|] == v;
    l := argl + |argv|;
  }

  /** The zero bytes among `argl` bytes from offset `start` on. */
  method ArgsCount(argl: nat, args: array<Byte>, start: nat) returns (n: nat)
    requires start + argl <= args.Length
    ensures n == Zeros(args[start..start + argl])
  {
    n := 0;
    for i := 0 to argl
      invariant n == Zeros(args[start..start + i])
    {
      ZerosAppend(args[start..start + i], [args[start + i]]);
      assert args[start..start + i + 1] == args[start..start + i] + [args[start + i]];
      if args[start + i] == 0 {
        n := n + 1;
      }
    }
  }

  /** Writes the offsets of the first `argc` strings; returns the offset after them. */
  method ArgvUnpack(argc: nat, argv: array<nat>, args: array<Byte>, start: nat) returns (pos: nat)
    requires argc <= argv.Length && start <= args.Length && argc <= Zeros(args[start..])
    modifies argv
    ensures start <= pos <= args.Length && (argc > 0 ==> start < pos && args[pos - 1] == 0)
    ensures forall i :: 0 <= i < argc ==>
      argv[i] <= args.Length && FirstString(args[argv[i]..]) == Unpack(argc, args[start..])[i]
    ensures Zeros(args[start..pos]) == argc
  {
    hide Unpack, Zeros, FirstString, AfterString;
    ghost var b, v := args[..], Unpack(argc, args[start..]);
    NothingYet(args[start..start]);
    pos := start;
    for i := 0 to argc
      invariant start <= pos <= args.Length && argc - i <= Zeros(b[pos..]) && Zeros(b[start..pos]) == i
      invariant i > 0 ==> start < pos && b[pos - 1] == 0
      invariant forall k :: 0 <= k < i ==> argv[k] <= args.Length && FirstString(b[argv[k]..]) == v[k]
      invariant v[i..] == Unpack(argc - i, b[pos..])
    {
      argv[i] := pos;
      UnpackStep(argc - i, b[pos..]);
      assert v[i..][0] == v[i] && v[i..][1..] == v[i + 1..];
      pos := SkipString(args, pos, start);
    }
  }

  lemma NothingYet(b: seq<Byte>)
    requires b == []
    ensures Zeros(b) == 0
  {
  }

  lemma UnpackStep(n: nat, b: seq<Byte>)
    requires n > 0
    ensures Unpack(n, b)[0] == FirstString(b) && Unpack(n, b)[1..] == Unpack(n - 1, AfterString(b))
  {
  }

  /** Past the string at offset `at` and its zero. */
  method SkipString(args: array<Byte>, at: nat, ghost start: nat) returns (pos: nat)
    requires start <= at <= args.Length && Zeros(args[at..]) > 0
    ensures at < pos <= args.Length && args[pos - 1] == 0
    ensures args[pos..] == AfterString(args[at..])
    ensures Zeros(args[pos..]) == Zeros(args[at..]) - 1 && Zeros(args[start..pos]) == Zeros(args[start..at]) + 1
  {
    hide Zeros, AfterString;
    ghost var b := args[..];
    NoZeros(args[at..]);
    ghost var z :| at <= z < args.Length && b[z] == 0;
    pos := at;
    while args[pos] != 0
      invariant at <= pos <= z && forall k :: at <= k < pos ==> b[k] != 0
      decreases z - pos
    {
      pos := pos + 1;
    }
    Skipped(b, start, at, pos);
    pos := pos + 1;
  }

  lemma Skipped(b: seq<Byte>, start: nat, at: nat, pos: nat)
    requires start <= at <= pos < |b| && b[pos] == 0 && forall k :: at <= k < pos ==> b[k] != 0
    ensures b[pos + 1..] == AfterString(b[at..])
    ensures Zeros(b[pos + 1..]) == Zeros(b[at..]) - 1 && Zeros(b[start..pos + 1]) == Zeros(b[start..at]) + 1
  {
    var s := b[at..pos];
    assert b[at..] == s + [0] + b[pos + 1..];
    StringInFront(s, b[pos + 1..]);
    NoZeros(s);
    ZerosAppend(s + [0], b[pos + 1..]);
    ZerosAppend(s, [0]);
    assert b[start..pos + 1] == b[start..at] + (s + [0]);
    ZerosAppend(b[start..at], s + [0]);
  }

  // ----- programs -----

  const PROGRAM_SIZE: nat := 8

  /** The bytes of a program value, in front of the packed arguments. */
  function Image(prog: seq<Byte>, v: seq<seq<Byte>>): seq<Byte> {
    prog + Pack(v)
  }

  method Execute(prog: seq<Byte>, argv: seq<array<Byte>>) returns (args: array<Byte>)
    requires |prog| == PROGRAM_SIZE && forall i :: 0 <= i < |argv| ==> Terminated(argv[i])
    ensures args[..] == Image(prog, Strs(argv))
  {
    var l := ArgvLen(argv);
    var buffer := new Byte[PROGRAM_SIZE + l];
    for i := 0 to PROGRAM_SIZE
      invariant buffer[..i] == prog[..i] && Strs(argv) == old(Strs(argv))
      invariant forall k :: 0 <= k < |argv| ==> Terminated(argv[k])
    {
      buffer[i] := prog[i];
    }
    var _ := ArgvPack(buffer, PROGRAM_SIZE, argv);
    args := buffer;
  }

  /** Unpacks the program value and the vector: `argv` has the offset of each string. */
  method ExecWrapper(args: array<Byte>) returns (prog: seq<Byte>, argc: nat, argv: array<nat>)
    requires PROGRAM_SIZE <= args.Length
    ensures prog == args[..PROGRAM_SIZE] && argc == Zeros(args[PROGRAM_SIZE..]) == argv.Length
    ensures forall i :: 0 <= i < argc ==>
      argv[i] <= args.Length && FirstString(args[argv[i]..]) == Unpack(argc, args[PROGRAM_SIZE..])[i]
  {
    prog := args[..PROGRAM_SIZE];
    argc := ArgsCount(args.Length - PROGRAM_SIZE, args, PROGRAM_SIZE);
    assert args[PROGRAM_SIZE..PROGRAM_SIZE + (args.Length - PROGRAM_SIZE)] == args[PROGRAM_SIZE..];
    argv := new nat[argc];
    var _ := ArgvUnpack(argc, argv, args, PROGRAM_SIZE);
  }

  /** What Execute packs, the wrapper unpacks: the same program, as many arguments, and the same
      ones. */
  lemma ExecuteThenWrapper(prog: seq<Byte>, v: seq<seq<Byte>>)
    requires |prog| == PROGRAM_SIZE && Strings(v)
    ensures var args := Image(prog, v);
      && |args| == PROGRAM_SIZE + |Pack(v)| && args[..PROGRAM_SIZE] == prog
      && Zeros(args[PROGRAM_SIZE..]) == |v| && Unpack(|v|, args[PROGRAM_SIZE..]) == v
  {
    PackThenUnpack(v, []);
    assert Image(prog, v)[PROGRAM_SIZE..] == Pack(v) + [] == Pack(v);
  }
}
