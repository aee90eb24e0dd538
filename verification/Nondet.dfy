/** Recording nondeterministic draws and replaying them: clock, ids, random numbers, environment variables and
    small files. */
module Nondet {
  import opened Seqs
  import Tapes

  type Bytes = Tapes.Bytes

  /** A float, by its bit pattern. */
  type Float = nat

  datatype Kind = Clock | Uuid | Random | Env | ReadFile

  datatype Draw = Draw(kind: Kind, value: string)

  /** What a program asks for. */
  datatype Ask =
    | NowIso
    | NewUuidHex
    | RandomFloat
    | GetEnv(name: string, default: Option<string>)
    | ReadPath(path: string)
  {
    function Kind(): Kind {
      match this
      case NowIso => Clock
      case NewUuidHex => Uuid
      case RandomFloat => Random
      case GetEnv(_, _) => Env
      case ReadPath(_) => ReadFile
    }
  }

  datatype Result =
    | Text(text: string)
    | Number(number: Float)
    | EnvIs(value: Option<string>)
    | Content(data: Bytes)
    | Refused    // the file is over the size cap, or cannot be opened
    | Diverged   // the replay does not fit the tape
    | Malformed  // a packed draw that does not unpack

  /** What the machine answers at each draw. */
  datatype World = World(
    text: nat -> string, number: nat -> Float, env: (nat, string) -> Option<string>,
    sizeOf: (nat, string) -> Option<nat>, file: (nat, string) -> Option<Bytes>)

  /** The exact hexadecimal form of a float and the JSON envelope of a file. */
  datatype Codec = Codec(
    hex: Float -> string, unhex: string -> Float,
    envelope: (string, Bytes) -> string, pathOf: string -> string, contentOf: string -> Bytes)
  {
    ghost predicate Contract() {
      && (forall x: Float :: unhex(hex(x)) == x)
      && forall p: string, d: Bytes :: pathOf(envelope(p, d)) == p && contentOf(envelope(p, d)) == d
    }
  }

  // ---- packed environment draws ---------------------------------------------------------------------------

  const NUL := '\0'

  /** `"{flag}\0{name}\0{value}"` */
  function Pack(name: string, value: Option<string>): string {
    (if value.Some? then "1" else "0") + [NUL] + name + [NUL] + if value.Some? then value.value else ""
  }

  function Find(s: string, from: nat): (i: nat)
    requires from <= |s|
    ensures from <= i <= |s| && (i < |s| ==> s[i] == NUL) && forall k :: from <= k < i ==> s[k] != NUL
    decreases |s| - from
  {
    if from == |s| || s[from] == NUL then from else Find(s, from + 1)
  }

  datatype Parts = Parts(flag: string, name: string, value: string) | TooFew

  /** `packed.split("\0", 2)` */
  function Split(s: string): Parts {
    var i := Find(s, 0);
    if i == |s| then TooFew
    else
      var j := Find(s, i + 1);
      if j == |s| then TooFew else Parts(s[..i], s[i + 1..j], s[j + 1..])
  }

  lemma FindIs(s: string, from: nat, i: nat)
    requires from <= i < |s| && s[i] == NUL && forall k :: from <= k < i ==> s[k] != NUL
    ensures Find(s, from) == i
  {
  }

  /** What is split off are the parts before the first two NULs, and there are none exactly where no two are. */
  lemma SplitIff(s: string, flag: string, name: string, value: string)
    ensures Split(s) == Parts(flag, name, value)
       <==> s == flag + [NUL] + name + [NUL] + value && NUL !in flag && NUL !in name
  {
    if NUL !in flag && NUL !in name {
      SplitsPacked(flag, name, value);
    }
    if Split(s).Parts? {
      var i := Find(s, 0);
      Rejoined(s, i, Find(s, i + 1));
    }
  }

  lemma SplitsPacked(flag: string, name: string, value: string)
    requires NUL !in flag && NUL !in name
    ensures Split(flag + [NUL] + name + [NUL] + value) == Parts(flag, name, value)
  {
    var s := flag + [NUL] + name + [NUL] + value;
    PartsAround(flag, name, value);
    FindIs(s, 0, |flag|);
    FindIs(s, |flag| + 1, |flag| + 1 + |name|);
  }

  lemma Rejoined(s: string, i: nat, j: nat)
    requires i < j < |s|
    ensures s == s[..i] + [s[i]] + s[i + 1..j] + [s[j]] + s[j + 1..]
  {
  }

  lemma PartsAround(flag: string, name: string, value: string)
    ensures var s, i, j := flag + [NUL] + name + [NUL] + value, |flag|, |flag| + 1 + |name|;
            && s[i] == NUL && s[j] == NUL && s[..i] == flag && s[i + 1..j] == name && s[j + 1..] == value
            && (NUL !in flag ==> forall k :: 0 <= k < i ==> s[k] != NUL)
            && (NUL !in name ==> forall k :: i + 1 <= k < j ==> s[k] != NUL)
  {
    var s, i, j := flag + [NUL] + name + [NUL] + value, |flag|, |flag| + 1 + |name|;
    forall k | 0 <= k < i ensures s[k] == flag[k] && flag[k] in flag {
    }
    forall k | i + 1 <= k < j ensures s[k] == name[k - i - 1] && name[k - i - 1] in name {
    }
  }

  /** A packed draw splits back into its parts exactly when the name has no NUL; the value may. */
  lemma PackSplits(name: string, value: Option<string>)
    ensures Split(Pack(name, value)).Parts?
    ensures NUL !in name ==>
              Split(Pack(name, value)) == Parts(if value.Some? then "1" else "0", name,
                                                if value.Some? then value.value else "")
    ensures NUL in name ==> Split(Pack(name, value)).name != name
  {
    var s := Pack(name, value);
    var rest := if value.Some? then value.value else "";
    assert s == [s[0]] + [NUL] + name + [NUL] + rest;
    FindIs(s, 0, 1);
    assert s[2..2 + |name|] == name && s[2 + |name|] == NUL;
    if NUL !in name {
      forall k | 2 <= k < 2 + |name| ensures s[k] != NUL {
        assert s[k] == name[k - 2];
      }
      FindIs(s, 2, 2 + |name|);
      assert s[3 + |name|..] == rest;
    } else {
      var k :| 0 <= k < |name| && name[k] == NUL;
      assert s[2 + k] == NUL;
      var j := Find(s, 2);
      assert j <= 2 + k;
      assert |s[2..j]| < |name|;
    }
  }

  // ---- one draw -------------------------------------------------------------------------------------------

  /** What a recorded draw hands back, and what it stores. */
  datatype Recorded = Recorded(result: Result, stored: seq<Draw>)

  /** `redact`, if given, changes only what is stored. */
  function Redacted(redact: Option<Bytes -> Bytes>, value: Bytes): Bytes {
    if redact.Some? then redact.value(value) else value
  }

  function EnvValue(world: World, t: nat, name: string, default: Option<string>): Option<string> {
    var v := world.env(t, name);
    if v.Some? then v else default
  }

  function RecordOne(
    world: World, codec: Codec, cap: nat, redact: Option<Bytes -> Bytes>, t: nat, ask: Ask): Recorded
  {
    match ask
    case NowIso => Recorded(Text(world.text(t)), [Draw(Clock, world.text(t))])
    case NewUuidHex => Recorded(Text(world.text(t)), [Draw(Uuid, world.text(t))])
    case RandomFloat => Recorded(Number(world.number(t)), [Draw(Random, codec.hex(world.number(t)))])
    case GetEnv(name, default) =>
      var v := EnvValue(world, t, name, default);
      Recorded(EnvIs(v), [Draw(Env, Pack(name, if v.Some? then Some(Redacted(redact, v.value)) else None))])
    case ReadPath(path) =>
      var size, data := world.sizeOf(t, path), world.file(t, path);
      if size == None || size.value > cap || data == None then Recorded(Refused, [])
      else Recorded(Content(data.value), [Draw(ReadFile, codec.envelope(path, Redacted(redact, data.value)))])
  }

  datatype Replayed = Replayed(result: Result, next: nat)

  function ReplayOne(codec: Codec, draws: seq<Draw>, i: nat, ask: Ask): Replayed {
    if i >= |draws| || draws[i].kind != ask.Kind() then Replayed(Diverged, i)
    else
      var value := draws[i].value;
      match ask
      case NowIso => Replayed(Text(value), i + 1)
      case NewUuidHex => Replayed(Text(value), i + 1)
      case RandomFloat => Replayed(Number(codec.unhex(value)), i + 1)
      case GetEnv(name, _) =>
        var parts := Split(value);
        if parts.TooFew? then Replayed(Malformed, i + 1)
        else if parts.name != name then Replayed(Diverged, i + 1)
        else Replayed(EnvIs(if parts.flag == "1" then Some(parts.value) else None), i + 1)
      case ReadPath(path) =>
        if codec.pathOf(value) != path then Replayed(Diverged, i + 1)
        else Replayed(Content(codec.contentOf(value)), i + 1)
  }

  class RecordingNondet {
    const world: World
    const codec: Codec
    const maxReadFileBytes: nat
    const redactFn: Option<Bytes -> Bytes>
    var draws: seq<Draw>
    ghost var asked: nat

    constructor (world: World, codec: Codec, maxReadFileBytes: nat, redactFn: Option<Bytes -> Bytes>)
      ensures this.world == world && this.codec == codec && this.maxReadFileBytes == maxReadFileBytes
      ensures this.redactFn == redactFn && draws == [] && asked == 0
    {
      this.world, this.codec, this.maxReadFileBytes, this.redactFn := world, codec, maxReadFileBytes, redactFn;
      draws, asked := [], 0;
    }

    method Serve(ask: Ask, t: nat) returns (result: Result)
      requires t == asked
      modifies this
      ensures var r := RecordOne(world, codec, maxReadFileBytes, redactFn, t, ask);
              result == r.result && draws == old(draws) + r.stored && asked == old(asked) + 1
    {
      asked := asked + 1;
      match ask
      case NowIso =>
        draws := draws + [Draw(Clock, world.text(t))];
        result := Text(world.text(t));
      case NewUuidHex =>
        draws := draws + [Draw(Uuid, world.text(t))];
        result := Text(world.text(t));
      case RandomFloat =>
        draws := draws + [Draw(Random, codec.hex(world.number(t)))];
        result := Number(world.number(t));
      case GetEnv(name, default) =>
        var v := EnvValue(world, t, name, default);
        var stored := if v.Some? then Some(Redacted(redactFn, v.value)) else None;
        draws := draws + [Draw(Env, Pack(name, stored))];
        result := EnvIs(v);
      case ReadPath(path) =>
        var size := world.sizeOf(t, path);
        if size == None || size.value > maxReadFileBytes {
          return Refused;
        }
        var data := world.file(t, path);
        if data == None {
          return Refused;
        }
        draws := draws + [Draw(ReadFile, codec.envelope(path, Redacted(redactFn, data.value)))];
        result := Content(data.value);
    }
  }

  class ReplayNondet {
    const codec: Codec
    const draws: seq<Draw>
    var i: nat

    constructor (codec: Codec, draws: seq<Draw>)
      ensures this.codec == codec && this.draws == draws && i == 0
    {
      this.codec, this.draws, i := codec, draws, 0;
    }

    /** The next stored value, if it is of this kind. */
    method Next(kind: Kind) returns (value: Option<string>)
      modifies this
      ensures old(i) < |draws| && draws[old(i)].kind == kind ==> value == Some(draws[old(i)].value) && i == old(i) + 1
      ensures !(old(i) < |draws| && draws[old(i)].kind == kind) ==> value == None && i == old(i)
    {
      if i >= |draws| || draws[i].kind != kind {
        return None;
      }
      value := Some(draws[i].value);
      i := i + 1;
    }

    method Serve(ask: Ask) returns (result: Result)
      modifies this
      ensures Replayed(result, i) == ReplayOne(codec, draws, old(i), ask)
    {
      var value := Next(ask.Kind());
      if value == None {
        return Diverged;
      }
      match ask
      case NowIso => result := Text(value.value);
      case NewUuidHex => result := Text(value.value);
      case RandomFloat => result := Number(codec.unhex(value.value));
      case GetEnv(name, _) =>
        var parts := Split(value.value);
        if parts.TooFew? {
          return Malformed;
        }
        if parts.name != name {
          return Diverged;
        }
        result := EnvIs(if parts.flag == "1" then Some(parts.value) else None);
      case ReadPath(path) =>
        if codec.pathOf(value.value) != path {
          return Diverged;
        }
        result := Content(codec.contentOf(value.value));
    }

    predicate FullyConsumed()
      reads this
    {
      i == |draws|
    }
  }

  /** The draws a recording can hand back: no refused file, and no NUL in a variable's name. */
  ghost predicate Faithful(world: World, codec: Codec, cap: nat, t: nat, ask: Ask) {
    && (ask.GetEnv? ==> NUL !in ask.name)
    && RecordOne(world, codec, cap, None, t, ask).result != Refused
  }

  /** One draw replays to what it recorded exactly when it is one of those. */
  lemma DrawReplays(world: World, codec: Codec, cap: nat, t: nat, ask: Ask, before: seq<Draw>, after: seq<Draw>)
    requires codec.Contract()
    ensures var r := RecordOne(world, codec, cap, None, t, ask);
            var again := ReplayOne(codec, before + r.stored + after, |before|, ask);
            && (again.result == r.result <==> Faithful(world, codec, cap, t, ask))
            && (Faithful(world, codec, cap, t, ask) ==> |r.stored| == 1 && again.next == |before| + 1)
  {
    var r := RecordOne(world, codec, cap, None, t, ask);
    if r.stored != [] {
      assert (before + r.stored + after)[|before|] == r.stored[0];
    }
    if ask.GetEnv? {
      PackSplits(ask.name, EnvValue(world, t, ask.name, ask.default));
    }
  }

  /** A stored draw of any tape serves a request of its own kind only, and is then used up. */
  lemma NextIff(codec: Codec, draws: seq<Draw>, i: nat, ask: Ask)
    ensures var again := ReplayOne(codec, draws, i, ask);
            if i < |draws| && draws[i].kind == ask.Kind() then again.next == i + 1
            else again == Replayed(Diverged, i)
  {
  }

  /** A stored variable, of any tape, is handed back as set to `value` exactly when it is the flag 1, this name and
      that value, as unset exactly when it is another flag and this name. */
  lemma EnvReplaysIff(codec: Codec, draws: seq<Draw>, i: nat, name: string, default: Option<string>, value: string)
    requires i < |draws| && draws[i].kind == Env
    ensures var result, stored := ReplayOne(codec, draws, i, GetEnv(name, default)).result, draws[i].value;
            && (result == EnvIs(Some(value)) <==> NUL !in name && stored == "1" + [NUL] + name + [NUL] + value)
            && (result == EnvIs(None) <==> NUL !in name && UnsetAs(stored, name))
            && (result == Malformed <==> forall a, b, c :: stored != Packed(a, b, c))
  {
    var stored := draws[i].value;
    var parts := Split(stored);
    SplitIff(stored, "1", name, value);
    if parts.Parts? {
      SplitIff(stored, parts.flag, parts.name, parts.value);
      assert stored == Packed(parts.flag, parts.name, parts.value);
    }
    forall a, b, c ensures parts.TooFew? ==> stored != Packed(a, b, c) {
      TwoNuls(stored, a, b, c);
    }
    forall a, c | NUL !in a && NUL !in name && stored == Packed(a, name, c)
      ensures parts == Parts(a, name, c)
    {
      SplitIff(stored, a, name, c);
    }
  }

  ghost predicate UnsetAs(stored: string, name: string) {
    exists flag, rest :: flag != "1" && NUL !in flag && stored == Packed(flag, name, rest)
  }

  function Packed(a: string, b: string, c: string): string {
    a + [NUL] + b + [NUL] + c
  }

  lemma TwoNuls(s: string, a: string, b: string, c: string)
    ensures s == Packed(a, b, c) ==> Split(s).Parts?
  {
    if s == Packed(a, b, c) {
      PartsAround(a, b, c);
    }
  }

  /** Whether a replayed request fits a recorded one: the same request, whatever default it gives. */
  predicate SameSource(a: Ask, b: Ask) {
    match (a, b)
    case (GetEnv(name, _), GetEnv(name', _)) => name == name'
    case _ => a == b
  }

  /** A request that does not fit the recorded draw diverges, and so does one past the end of the tape. */
  lemma MisfitDiverges(
    world: World, codec: Codec, cap: nat, redact: Option<Bytes -> Bytes>, t: nat, recorded: Ask, asked: Ask,
    before: seq<Draw>, after: seq<Draw>)
    requires codec.Contract() && !SameSource(recorded, asked) && (recorded.GetEnv? ==> NUL !in recorded.name)
    requires RecordOne(world, codec, cap, redact, t, recorded).stored != []
    ensures var stored := RecordOne(world, codec, cap, redact, t, recorded).stored;
            ReplayOne(codec, before + stored + after, |before|, asked).result == Diverged
    ensures ReplayOne(codec, before, |before|, asked).result == Diverged
  {
    var stored := RecordOne(world, codec, cap, redact, t, recorded).stored;
    assert (before + stored + after)[|before|] == stored[0];
    if recorded.GetEnv? {
      var v := EnvValue(world, t, recorded.name, recorded.default);
      PackSplits(recorded.name, if v.Some? then Some(Redacted(redact, v.value)) else None);
    }
  }

  /** A redacted draw replays as the redacted value; the live caller saw the real one. */
  lemma RedactedReplays(
    world: World, codec: Codec, cap: nat, redact: Bytes -> Bytes, t: nat, ask: Ask, before: seq<Draw>, after: seq<Draw>)
    requires codec.Contract() && Faithful(world, codec, cap, t, ask)
    ensures var r := RecordOne(world, codec, cap, Some(redact), t, ask);
            && r.result == RecordOne(world, codec, cap, None, t, ask).result
            && ReplayOne(codec, before + r.stored + after, |before|, ask).result
               == match r.result
                  case EnvIs(Some(v)) => EnvIs(Some(redact(v)))
                  case Content(d) => Content(redact(d))
                  case _ => r.result
  {
    var r := RecordOne(world, codec, cap, Some(redact), t, ask);
    assert (before + r.stored + after)[|before|] == r.stored[0];
    if ask.GetEnv? {
      var v := EnvValue(world, t, ask.name, ask.default);
      PackSplits(ask.name, if v.Some? then Some(redact(v.value)) else None);
    }
  }

  // ---- whole programs -------------------------------------------------------------------------------------

  /** What a program asks next depends on what it has been handed; `None` is the end. */
  type Program = seq<Result> -> Option<Ask>

  datatype Recording = Recording(results: seq<Result>, draws: seq<Draw>)

  /** The first `n` draws of a program. */
  function Record(program: Program, world: World, codec: Codec, cap: nat, n: nat): Recording {
    if n == 0 then Recording([], [])
    else
      var r := Record(program, world, codec, cap, n - 1);
      var ask := program(r.results);
      if ask == None then r
      else
        var one := RecordOne(world, codec, cap, None, |r.results|, ask.value);
        Recording(r.results + [one.result], r.draws + one.stored)
  }

  datatype Replaying = Replaying(results: seq<Result>, i: nat)

  function Replay(program: Program, codec: Codec, draws: seq<Draw>, n: nat): Replaying {
    if n == 0 then Replaying([], 0)
    else
      var r := Replay(program, codec, draws, n - 1);
      var ask := program(r.results);
      if ask == None then r
      else
        var one := ReplayOne(codec, draws, r.i, ask.value);
        Replaying(r.results + [one.result], one.next)
  }

  /** Every draw of the first `n` is one that can be handed back. */
  ghost predicate AllFaithful(program: Program, world: World, codec: Codec, cap: nat, n: nat) {
    n > 0 ==>
      && AllFaithful(program, world, codec, cap, n - 1)
      && var r := Record(program, world, codec, cap, n - 1);
         var ask := program(r.results);
         ask.Some? ==> Faithful(world, codec, cap, |r.results|, ask.value)
  }

  /** What the machine answers at draw `t`: the variable where it is set and the default where it is not; the file
      where it exists, is within the cap and opens. */
  ghost predicate Answers(world: World, cap: nat, t: nat, ask: Ask, result: Result) {
    match ask
    case NowIso => result == Text(world.text(t))
    case NewUuidHex => result == Text(world.text(t))
    case RandomFloat => result == Number(world.number(t))
    case GetEnv(name, default) =>
      && result.EnvIs?
      && (world.env(t, name).Some? ==> result.value == world.env(t, name))
      && (world.env(t, name) == None ==> result.value == default)
    case ReadPath(path) =>
      && (result == Refused <==>
           world.sizeOf(t, path) == None || world.sizeOf(t, path).value > cap || world.file(t, path) == None)
      && (result != Refused ==> result.Content? && Some(result.data) == world.file(t, path))
  }

  /** The `k`-th result is the machine's answer to what the program then asks. */
  ghost predicate AnsweredAt(program: Program, world: World, cap: nat, results: seq<Result>, k: nat)
    requires k < |results|
  {
    var ask := program(results[..k]);
    ask.Some? && Answers(world, cap, k, ask.value, results[k])
  }

  /** The `k`-th request can be handed back: no NUL in a variable's name, and no refusal. */
  ghost predicate KeptAt(program: Program, results: seq<Result>, k: nat)
    requires k < |results|
  {
    var ask := program(results[..k]);
    results[k] != Refused && (ask.Some? && ask.value.GetEnv? ==> NUL !in ask.value.name)
  }

  lemma RecordedOne(world: World, codec: Codec, cap: nat, t: nat, ask: Ask)
    ensures var result := RecordOne(world, codec, cap, None, t, ask).result;
            && Answers(world, cap, t, ask, result)
            && (Faithful(world, codec, cap, t, ask) <==> result != Refused && (ask.GetEnv? ==> NUL !in ask.name))
  {
  }

  ghost predicate AllAnswered(program: Program, world: World, cap: nat, results: seq<Result>) {
    forall k :: 0 <= k < |results| ==> AnsweredAt(program, world, cap, results, k)
  }

  ghost predicate AllKept(program: Program, results: seq<Result>) {
    forall k :: 0 <= k < |results| ==> KeptAt(program, results, k)
  }

  lemma AllNext(program: Program, world: World, cap: nat, front: seq<Result>, x: Result)
    ensures var results := front + [x];
            && (AllAnswered(program, world, cap, results) <==>
                  AllAnswered(program, world, cap, front) && AnsweredAt(program, world, cap, results, |front|))
            && (AllKept(program, results) <==> AllKept(program, front) && KeptAt(program, results, |front|))
  {
    var results := front + [x];
    forall k | 0 <= k < |front|
      ensures AnsweredAt(program, world, cap, results, k) == AnsweredAt(program, world, cap, front, k)
      ensures KeptAt(program, results, k) == KeptAt(program, front, k)
    {
      assert results[k] == front[k] && results[..k] == front[..k];
    }
  }

  lemma LastOne(program: Program, world: World, codec: Codec, cap: nat, front: seq<Result>)
    requires program(front).Some?
    ensures var one := RecordOne(world, codec, cap, None, |front|, program(front).value).result;
            && AnsweredAt(program, world, cap, front + [one], |front|)
            && (KeptAt(program, front + [one], |front|) <==> Faithful(world, codec, cap, |front|, program(front).value))
  {
    var one := RecordOne(world, codec, cap, None, |front|, program(front).value).result;
    RecordedOne(world, codec, cap, |front|, program(front).value);
    assert (front + [one])[..|front|] == front;
  }

  /** A recorded run, result by result: up to `n` requests, each answered as the machine answers it. */
  lemma {:induction false} RecordedRun(program: Program, world: World, codec: Codec, cap: nat, n: nat)
    ensures var results := Record(program, world, codec, cap, n).results;
            && |results| <= n && (|results| < n ==> program(results) == None)
            && AllAnswered(program, world, cap, results)
            && (AllFaithful(program, world, codec, cap, n) <==> AllKept(program, results))
  {
    if n > 0 {
      RecordedRun(program, world, codec, cap, n - 1);
      var front := Record(program, world, codec, cap, n - 1).results;
      if program(front).Some? {
        LastOne(program, world, codec, cap, front);
        AllNext(program, world, cap, front, RecordOne(world, codec, cap, None, |front|, program(front).value).result);
      }
    }
  }

  lemma {:induction false} RecordGrows(program: Program, world: World, codec: Codec, cap: nat, k: nat, n: nat)
    requires k <= n
    ensures var a, b := Record(program, world, codec, cap, k), Record(program, world, codec, cap, n);
            a.results <= b.results && a.draws <= b.draws
  {
    if k < n {
      RecordGrows(program, world, codec, cap, k, n - 1);
    }
  }

  /** While the draws can be handed back, a replay of a longer recording hands back the same results and stands
      where the recording stood. */
  lemma {:induction false} ReplayFollows(program: Program, world: World, codec: Codec, cap: nat, k: nat, n: nat)
    requires codec.Contract() && k <= n && AllFaithful(program, world, codec, cap, k)
    ensures var r := Record(program, world, codec, cap, k);
            Replay(program, codec, Record(program, world, codec, cap, n).draws, k) == Replaying(r.results, |r.draws|)
  {
    if k > 0 {
      ReplayFollows(program, world, codec, cap, k - 1, n);
      NextDraw(program, world, codec, cap, k - 1, n);
    }
  }

  lemma TapeAround(program: Program, world: World, codec: Codec, cap: nat, k: nat, n: nat) returns (after: seq<Draw>)
    requires k < n && program(Record(program, world, codec, cap, k).results).Some?
    ensures var r := Record(program, world, codec, cap, k);
            Record(program, world, codec, cap, n).draws
            == r.draws + RecordOne(world, codec, cap, None, |r.results|, program(r.results).value).stored + after
  {
    RecordGrows(program, world, codec, cap, k + 1, n);
    after := Record(program, world, codec, cap, n).draws[|Record(program, world, codec, cap, k + 1).draws|..];
  }

  /** The draw at `k`, replayed out of the whole tape. */
  lemma NextDraw(program: Program, world: World, codec: Codec, cap: nat, k: nat, n: nat)
    requires codec.Contract() && k < n
    ensures var r := Record(program, world, codec, cap, k);
            program(r.results).Some? ==>
              var ask := program(r.results).value;
              var one := RecordOne(world, codec, cap, None, |r.results|, ask);
              var again := ReplayOne(codec, Record(program, world, codec, cap, n).draws, |r.draws|, ask);
              && (Faithful(world, codec, cap, |r.results|, ask) ==> again == Replayed(one.result, |r.draws| + |one.stored|))
              && (again.result == one.result <==> Faithful(world, codec, cap, |r.results|, ask))
  {
    var r := Record(program, world, codec, cap, k);
    if program(r.results).Some? {
      var ask := program(r.results).value;
      var after := TapeAround(program, world, codec, cap, k, n);
      DrawReplays(world, codec, cap, |r.results|, ask, r.draws, after);
    }
  }

  /** Replaying a recorded program gives back every result, draw by draw, and uses up the tape, exactly when no
      file was refused and no variable's name held a NUL. */
  lemma ReplayIsFaithfulIff(program: Program, world: World, codec: Codec, cap: nat, n: nat)
    requires codec.Contract()
    ensures var r := Record(program, world, codec, cap, n);
            var again := Replay(program, codec, r.draws, n);
            && (again.results == r.results <==> AllFaithful(program, world, codec, cap, n))
            && (AllFaithful(program, world, codec, cap, n) ==> again.i == |r.draws|)
  {
    if AllFaithful(program, world, codec, cap, n) {
      ReplayFollows(program, world, codec, cap, n, n);
    } else {
      var k := FirstUnfaithful(program, world, codec, cap, n);
      ReplayDiffers(program, world, codec, cap, k, n);
    }
  }

  /** A program against the recorder: its first `n` draws. */
  method RunRecorded(program: Program, source: RecordingNondet, n: nat) returns (results: seq<Result>)
    requires source.draws == [] && source.asked == 0 && source.redactFn == None
    modifies source
    ensures Recording(results, source.draws) == Record(program, source.world, source.codec, source.maxReadFileBytes, n)
  {
    results := [];
    for k := 0 to n
      invariant source.asked == |results|
      invariant Recording(results, source.draws) == Record(program, source.world, source.codec, source.maxReadFileBytes, k)
    {
      var ask := program(results);
      if ask.Some? {
        var result := source.Serve(ask.value, |results|);
        results := results + [result];
      }
    }
  }

  /** A program against the replayer. */
  method RunReplayed(program: Program, source: ReplayNondet, n: nat) returns (results: seq<Result>)
    requires source.i == 0
    modifies source
    ensures Replaying(results, source.i) == Replay(program, source.codec, source.draws, n)
  {
    results := [];
    for k := 0 to n
      invariant Replaying(results, source.i) == Replay(program, source.codec, source.draws, k)
    {
      var ask := program(results);
      if ask.Some? {
        var result := source.Serve(ask.value);
        results := results + [result];
      }
    }
  }

  /** Recorded, each request gets the machine's answer. Replayed, a program gets back every result, and has then used
      up the tape, if and only if no file was refused and no variable's name held a NUL. */
  method RecordThenReplay(program: Program, world: World, codec: Codec, cap: nat, n: nat)
    returns (recorded: seq<Result>, replayed: seq<Result>, consumed: bool)
    requires codec.Contract()
    ensures |recorded| <= n && (|recorded| < n ==> program(recorded) == None)
    ensures forall k :: 0 <= k < |recorded| ==> AnsweredAt(program, world, cap, recorded, k)
    ensures replayed == recorded <==> forall k :: 0 <= k < |recorded| ==> KeptAt(program, recorded, k)
    ensures replayed == recorded ==> consumed
  {
    var recorder := new RecordingNondet(world, codec, cap, None);
    recorded := RunRecorded(program, recorder, n);
    var replayer := new ReplayNondet(codec, recorder.draws);
    replayed := RunReplayed(program, replayer, n);
    consumed := replayer.FullyConsumed();
    ReplayIsFaithfulIff(program, world, codec, cap, n);
    RecordedRun(program, world, codec, cap, n);
  }

  lemma ReplayDiffers(program: Program, world: World, codec: Codec, cap: nat, k: nat, n: nat)
    requires codec.Contract() && k < n && AllFaithful(program, world, codec, cap, k)
    requires var r := Record(program, world, codec, cap, k);
             program(r.results).Some? && !Faithful(world, codec, cap, |r.results|, program(r.results).value)
    ensures var r := Record(program, world, codec, cap, n);
            Replay(program, codec, r.draws, n).results != r.results
  {
    var r, all := Record(program, world, codec, cap, k), Record(program, world, codec, cap, n);
    ReplayFollows(program, world, codec, cap, k, n);
    NextDraw(program, world, codec, cap, k, n);
    RecordGrows(program, world, codec, cap, k + 1, n);
    ReplayGrows(program, codec, all.draws, k + 1, n);
    var ask := program(r.results).value;
    PrefixesDiffer(r.results, RecordOne(world, codec, cap, None, |r.results|, ask).result,
                   ReplayOne(codec, all.draws, |r.draws|, ask).result,
                   all.results, Replay(program, codec, all.draws, n).results);
  }

  lemma PrefixesDiffer(front: seq<Result>, x: Result, y: Result, a: seq<Result>, b: seq<Result>)
    requires front + [x] <= a && front + [y] <= b && x != y
    ensures b != a
  {
    assert a[|front|] == (front + [x])[|front|] == x && b[|front|] == (front + [y])[|front|] == y;
  }

  lemma {:induction false} ReplayGrows(program: Program, codec: Codec, draws: seq<Draw>, k: nat, n: nat)
    requires k <= n
    ensures Replay(program, codec, draws, k).results <= Replay(program, codec, draws, n).results
  {
    if k < n {
      ReplayGrows(program, codec, draws, k, n - 1);
    }
  }

  lemma {:induction false} FirstUnfaithful(program: Program, world: World, codec: Codec, cap: nat, n: nat)
    returns (k: nat)
    requires !AllFaithful(program, world, codec, cap, n)
    ensures k < n && AllFaithful(program, world, codec, cap, k)
    ensures var r := Record(program, world, codec, cap, k);
            program(r.results).Some? && !Faithful(world, codec, cap, |r.results|, program(r.results).value)
  {
    if AllFaithful(program, world, codec, cap, n - 1) {
      k := n - 1;
    } else {
      k := FirstUnfaithful(program, world, codec, cap, n - 1);
    }
  }

  /** A replayed program that has asked the same so far and now asks for something else diverges at once. */
  lemma ChangedProgramDiverges(program: Program, other: Program, world: World, codec: Codec, cap: nat, k: nat, n: nat)
    requires codec.Contract() && k < n && AllFaithful(program, world, codec, cap, k + 1)
    requires Replay(other, codec, Record(program, world, codec, cap, n).draws, k)
          == Replay(program, codec, Record(program, world, codec, cap, n).draws, k)
    requires var r := Record(program, world, codec, cap, k).results;
             program(r).Some? && other(r).Some? && !SameSource(program(r).value, other(r).value)
    ensures var again := Replay(other, codec, Record(program, world, codec, cap, n).draws, k + 1).results;
            again != [] && again[|again| - 1] == Diverged
  {
    var r := Record(program, world, codec, cap, k);
    ReplayFollows(program, world, codec, cap, k, n);
    MisfitAt(program, world, codec, cap, k, n, other(r.results).value);
  }

  lemma MisfitAt(program: Program, world: World, codec: Codec, cap: nat, k: nat, n: nat, asked: Ask)
    requires codec.Contract() && k < n
    requires var r := Record(program, world, codec, cap, k);
             && program(r.results).Some? && !SameSource(program(r.results).value, asked)
             && Faithful(world, codec, cap, |r.results|, program(r.results).value)
    ensures ReplayOne(codec, Record(program, world, codec, cap, n).draws, |Record(program, world, codec, cap, k).draws|,
                      asked).result == Diverged
  {
    var r := Record(program, world, codec, cap, k);
    var ask := program(r.results).value;
    var after := TapeAround(program, world, codec, cap, k, n);
    MisfitDiverges(world, codec, cap, None, |r.results|, ask, asked, r.draws, after);
  }
}
