/**
 Parsers over byte strings.  A parser sees everything from its first byte to the end of the
 buffer and says how much of it it used, so where it started in the buffer cannot matter.
 */
module Parsing {
  import opened ByteStrings

  datatype Parsed<+T> = Malformed | Got(value: T, used: nat) {
    predicate IsFailure() {
      Malformed?
    }

    function PropagateFailure<U>(): Parsed<U>
      requires Malformed?
    {
      Malformed
    }

    function Extract(): (T, nat)
      requires Got?
    {
      (value, used)
    }
  }

  type Parser<!T> = Bytes -> Parsed<T>

  /** The parser stays inside the buffer and uses at least `least` bytes. */
  ghost predicate Consumes<T(!new)>(item: Parser<T>, least: nat) {
    forall s :: item(s).Got? ==> least <= item(s).used <= |s|
  }

  predicate Shares(s: Bytes, t: Bytes, n: nat) {
    n <= |s| && n <= |t| && s[..n] == t[..n]
  }

  /** What the parser returns depends on the bytes it used and on nothing after them. */
  ghost predicate Local<T(!new)>(item: Parser<T>) {
    forall s, t :: item(s).Got? && Shares(s, t, item(s).used) ==> item(t) == item(s)
  }

  /** Parsing undoes the serializer, whatever follows. */
  ghost predicate Inverts<U(!new), T(!new)>(item: Parser<T>, ser: U -> Bytes, meaning: U -> T, ok: U -> bool) {
    forall u, rest :: ok(u) ==> item(ser(u) + rest) == Got(meaning(u), |ser(u)|)
  }

  function Concat<U>(ser: U -> Bytes, us: seq<U>): Bytes {
    if us == [] then [] else ser(us[0]) + Concat(ser, us[1..])
  }

  function Map<U, T>(f: U -> T, us: seq<U>): (ts: seq<T>)
    ensures |ts| == |us| && forall i :: 0 <= i < |us| ==> ts[i] == f(us[i])
  {
    seq(|us|, i requires 0 <= i < |us| => f(us[i]))
  }

  /** A result read in two parts: `xs` first, in `used` bytes, then `rest`. */
  function After<T>(xs: seq<T>, used: nat, rest: Parsed<seq<T>>): Parsed<seq<T>> {
    match rest
    case Malformed => Malformed
    case Got(ys, u) => Got(xs + ys, used + u)
  }

  /** `n` items back to back, nothing between them. */
  function Repeat<T>(item: Parser<T>, n: nat, s: Bytes): (r: Parsed<seq<T>>)
    ensures r.Got? ==> |r.value| == n && r.used <= |s|
  {
    if n == 0 then Got([], 0) else
    match item(s)
    case Malformed => Malformed
    case Got(x, a) => if a <= |s| then After([x], a, Repeat(item, n - 1, s[a..])) else Malformed
  }

  /** Reading one and then some more. */
  lemma RepeatOneMore<T>(item: Parser<T>, s: Bytes, x: T, a: nat, xs: seq<T>, used: nat)
    requires a <= |s| && item(s) == Got(x, a) && Repeat(item, |xs|, s[a..]) == Got(xs, used)
    ensures Repeat(item, |xs| + 1, s) == Got([x] + xs, a + used)
  {
  }

  lemma AfterNothing<T>(rest: Parsed<seq<T>>)
    ensures After([], 0, rest) == rest
  {
    if rest.Got? {
      assert [] + rest.value == rest.value;
    }
  }

  /** One more step of a reading loop: the next item joins `xs`, or its failure is the whole run's. */
  lemma AfterOneMore<T>(item: Parser<T>, n: nat, s: Bytes, xs: seq<T>, used: nat)
    requires n > 0 && (item(s).Got? ==> item(s).used <= |s|)
    ensures After(xs, used, Repeat(item, n, s)) ==
            match item(s)
            case Malformed => Malformed
            case Got(x, a) => After(xs + [x], used + a, Repeat(item, n - 1, s[a..]))
  {
    if item(s).Got? {
      var rest := Repeat(item, n - 1, s[item(s).used..]);
      if rest.Got? {
        assert xs + ([item(s).value] + rest.value) == xs + [item(s).value] + rest.value;
      }
    }
  }

  lemma AfterAll<T>(item: Parser<T>, s: Bytes, xs: seq<T>, used: nat)
    ensures After(xs, used, Repeat(item, 0, s)) == Got(xs, used)
  {
    assert xs + [] == xs;
  }

  /** Where in `s` each item of the run beginning at `pos` starts, and where the last one ends. */
  ghost function Cuts<T>(item: Parser<T>, n: nat, s: Bytes, pos: nat): (cuts: seq<nat>)
    requires pos <= |s| && Repeat(item, n, s[pos..]).Got?
    ensures |cuts| == n + 1 && cuts[0] == pos && cuts[n] == pos + Repeat(item, n, s[pos..]).used
  {
    if n == 0 then [pos] else
    var next := pos + item(s[pos..]).used;
    assert s[pos..][next - pos..] == s[next..];
    [pos] + Cuts(item, n - 1, s, next)
  }

  /** Reading at `from` gives `x` and stops exactly at `to`. */
  ghost predicate ReadsBetween<T>(item: Parser<T>, s: Bytes, from: nat, to: nat, x: T) {
    from <= to <= |s| && item(s[from..]) == Got(x, to - from)
  }

  /** Reading one value between two cuts, and some more from the second cut on. */
  lemma ReadsOneMore<T>(item: Parser<T>, s: Bytes, from: nat, to: nat, x: T, xs: seq<T>)
    requires ReadsBetween(item, s, from, to, x) && Repeat(item, |xs|, s[to..]) == Got(xs, |s| - to)
    ensures Repeat(item, |xs| + 1, s[from..]) == Got([x] + xs, |s| - from)
  {
    hide Repeat;
    assert s[from..][to - from..] == s[to..];
    RepeatOneMore(item, s[from..], x, to - from, xs, |s| - to);
  }

  lemma {:induction false} RepeatConsumes<T(!new)>(item: Parser<T>, least: nat, n: nat, s: Bytes)
    requires Consumes(item, least)
    requires Repeat(item, n, s).Got?
    ensures n * least <= Repeat(item, n, s).used
  {
    if n > 0 {
      var a := item(s).used;
      RepeatConsumes(item, least, n - 1, s[a..]);
      assert n * least == least + (n - 1) * least;
    }
  }

  lemma SharesTail(s: Bytes, t: Bytes, a: nat, b: nat)
    requires Shares(s, t, a + b)
    ensures Shares(s, t, a) && Shares(s[a..], t[a..], b)
  {
    assert s[..a] == s[..a + b][..a] && t[..a] == t[..a + b][..a];
    assert s[a..][..b] == s[..a + b][a..] && t[a..][..b] == t[..a + b][a..];
  }

  lemma LocalAt<T(!new)>(item: Parser<T>, s: Bytes, t: Bytes)
    requires Local(item) && item(s).Got? && Shares(s, t, item(s).used)
    ensures item(t) == item(s)
  {
  }

  /** A local parser reads the same bytes the same way at any offset of any buffer. */
  lemma LocalAnywhere<T(!new)>(item: Parser<T>, raw: Bytes, start: nat, before: Bytes, rest: Bytes)
    requires Local(item) && start <= |raw| && item(raw[start..]).Got?
    requires start + item(raw[start..]).used <= |raw|
    ensures item((before + raw[start..start + item(raw[start..]).used] + rest)[|before|..]) == item(raw[start..])
  {
    var used := item(raw[start..]).used;
    var other := before + raw[start..start + used] + rest;
    assert other[|before|..] == raw[start..start + used] + rest;
    assert raw[start..][..used] == raw[start..start + used];
    LocalAt(item, raw[start..], other[|before|..]);
  }

  lemma {:induction false} RepeatLocal<T(!new)>(item: Parser<T>, n: nat, s: Bytes, t: Bytes)
    requires Local(item)
    requires Repeat(item, n, s).Got? && Shares(s, t, Repeat(item, n, s).used)
    ensures Repeat(item, n, t) == Repeat(item, n, s)
  {
    hide Local;
    if n > 0 {
      var a := item(s).used;
      var b := Repeat(item, n - 1, s[a..]).used;
      SharesTail(s, t, a, b);
      LocalAt(item, s, t);
      RepeatLocal(item, n - 1, s[a..], t[a..]);
    }
  }

  lemma InvertsAt<U(!new), T(!new)>(
    item: Parser<T>, ser: U -> Bytes, meaning: U -> T, ok: U -> bool, u: U, rest: Bytes)
    requires Inverts(item, ser, meaning, ok) && ok(u)
    ensures item(ser(u) + rest) == Got(meaning(u), |ser(u)|)
  {
  }

  lemma {:induction false} RepeatInverts<U(!new), T(!new)>(
    item: Parser<T>, ser: U -> Bytes, meaning: U -> T, ok: U -> bool, us: seq<U>, rest: Bytes)
    requires Inverts(item, ser, meaning, ok)
    requires forall i :: 0 <= i < |us| ==> ok(us[i])
    ensures Repeat(item, |us|, Concat(ser, us) + rest) == Got(Map(meaning, us), |Concat(ser, us)|)
  {
    hide Inverts;
    if us == [] {
      assert Map(meaning, us) == [];
    } else {
      var head, tail := ser(us[0]), Concat(ser, us[1..]);
      var s := Concat(ser, us) + rest;
      assert s == head + (tail + rest) && s[|head|..] == tail + rest;
      InvertsAt(item, ser, meaning, ok, us[0], tail + rest);
      RepeatInverts(item, ser, meaning, ok, us[1..], rest);
      assert Map(meaning, us) == [meaning(us[0])] + Map(meaning, us[1..]);
    }
  }

  /** A run and its cuts are a first item and the run after it. */
  lemma RunSplits<T>(item: Parser<T>, n: nat, s: Bytes, pos: nat)
    requires pos <= |s| && 0 < n && Repeat(item, n, s[pos..]).Got?
    ensures var first := item(s[pos..]);
            && first.Got? && pos + first.used <= |s|
            && var next := pos + first.used;
               && Repeat(item, n - 1, s[next..]).Got?
               && Repeat(item, n, s[pos..]).value == [first.value] + Repeat(item, n - 1, s[next..]).value
               && Cuts(item, n, s, pos) == [pos] + Cuts(item, n - 1, s, next)
  {
    assert s[pos..][item(s[pos..]).used..] == s[pos + item(s[pos..]).used..];
  }

  /** Every item of a run was read at its cut, and the next one starts where it stopped. */
  lemma {:induction false} CutsTile<T>(item: Parser<T>, n: nat, s: Bytes, pos: nat, i: nat)
    requires pos <= |s| && Repeat(item, n, s[pos..]).Got? && i < n
    ensures var cuts := Cuts(item, n, s, pos);
            ReadsBetween(item, s, cuts[i], cuts[i + 1], Repeat(item, n, s[pos..]).value[i])
  {
    hide Repeat, Cuts;
    RunSplits(item, n, s, pos);
    var next := pos + item(s[pos..]).used;
    if i > 0 {
      CutsTile(item, n - 1, s, next, i - 1);
    }
  }

  lemma {:induction false} ConcatLength<U>(ser: U -> Bytes, us: seq<U>, least: nat)
    requires forall i :: 0 <= i < |us| ==> least <= |ser(us[i])|
    ensures |us| * least <= |Concat(ser, us)|
  {
    if us != [] {
      ConcatLength(ser, us[1..], least);
      assert |us| * least == least + (|us| - 1) * least;
    }
  }
}
