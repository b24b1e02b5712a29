/** Text helpers the extractor relies on: joining with a separator (Python's
    `sep.join(xs)`), splitting on one character (`s.split('.')`), decimal
    digits (`str.isdigit`, `int(s)`, `str(i)`), all on `string` = `seq<char>`. */
module Strings {

  /** `sep.join(xs)`. */
  function Join(sep: string, xs: seq<string>): (r: string)
    ensures |xs| == 0 ==> r == ""
    ensures |xs| == 1 ==> r == xs[0]
  {
    if |xs| == 0 then ""
    else if |xs| == 1 then xs[0]
    else xs[0] + sep + Join(sep, xs[1..])
  }

  /** Joining two non-empty lists puts exactly one separator between the two
      joined halves: the property that makes `Join` mean "join". */
  lemma {:induction false} JoinAppend(sep: string, xs: seq<string>, ys: seq<string>)
    requires |xs| > 0 && |ys| > 0
    ensures Join(sep, xs + ys) == Join(sep, xs) + sep + Join(sep, ys)
    decreases |xs|
  {
    if |xs| == 1 {
      assert (xs + ys)[1..] == ys;
    } else {
      assert (xs + ys)[1..] == xs[1..] + ys;
      JoinAppend(sep, xs[1..], ys);
    }
  }

  /** `s.split(d)`: the pieces between occurrences of `d`, always at least one. */
  function Split(s: string, d: char): (r: seq<string>)
    ensures |r| >= 1
    ensures forall i :: 0 <= i < |r| ==> d !in r[i]
    ensures Join([d], r) == s
  {
    if |s| == 0 then [""]
    else
      var rest := Split(s[1..], d);
      if s[0] == d then [""] + rest
      else
        assert rest == [rest[0]] + rest[1..];
        JoinHead([d], rest[0], rest[1..]);
        JoinHead([d], [s[0]] + rest[0], rest[1..]);
        [[s[0]] + rest[0]] + rest[1..]
  }

  lemma JoinHead(sep: string, x: string, xs: seq<string>)
    ensures Join(sep, [x] + xs) == if |xs| == 0 then x else x + sep + Join(sep, xs)
  {
    assert ([x] + xs)[1..] == xs;
  }

  /** Splitting a join of separator-free pieces gives the pieces back: with
      `Split`'s own ensures this makes `Join([d], ·)` and `Split(·, d)` inverse
      bijections between strings and non-empty lists of `d`-free pieces. */
  lemma {:induction false} SplitJoin(xs: seq<string>, d: char)
    requires |xs| >= 1
    requires forall i :: 0 <= i < |xs| ==> d !in xs[i]
    ensures Split(Join([d], xs), d) == xs
    decreases |xs|, |xs[0]|
  {
    var x := xs[0];
    if |x| == 0 {
      if |xs| == 1 {
      } else {
        JoinHead([d], x, xs[1..]);
        assert Join([d], xs) == [d] + Join([d], xs[1..]);
        assert Join([d], xs)[1..] == Join([d], xs[1..]);
        SplitJoin(xs[1..], d);
        assert xs == [""] + xs[1..];
      }
    } else {
      var ys := [x[1..]] + xs[1..];
      assert forall i :: 0 <= i < |ys| ==> d !in ys[i] by {
        forall i | 0 <= i < |ys| ensures d !in ys[i] {
          if i == 0 {
            assert forall c :: c in x[1..] ==> c in x;
          } else {
            assert ys[i] == xs[i];
          }
        }
      }
      JoinHead([d], x, xs[1..]);
      JoinHead([d], x[1..], xs[1..]);
      assert xs == [x] + xs[1..];
      assert x == [x[0]] + x[1..];
      assert Join([d], xs) == [x[0]] + Join([d], ys);
      assert Join([d], xs)[1..] == Join([d], ys);
      assert x[0] != d by { assert x[0] in x; }
      SplitJoin(ys, d);
    }
  }

  predicate IsDigit(c: char) {
    '0' <= c <= '9'
  }

  /** `s.isdigit()` on ASCII text: non-empty and every character a digit. */
  predicate IsDigits(s: string) {
    |s| > 0 && forall i :: 0 <= i < |s| ==> IsDigit(s[i])
  }

  /** `int(s)` for a digit string (leading zeros allowed, as in Python). */
  function ParseNat(s: string): nat
    requires forall i :: 0 <= i < |s| ==> IsDigit(s[i])
  {
    if |s| == 0 then 0
    else
      assert IsDigit(s[|s| - 1]);
      10 * ParseNat(s[..|s| - 1]) + (s[|s| - 1] as int - '0' as int)
  }

  /** `str(n)` for a natural number: its shortest decimal spelling. */
  function NatToString(n: nat): (r: string)
    ensures IsDigits(r)
    ensures |r| > 1 ==> r[0] != '0'
    ensures ParseNat(r) == n
    decreases n
  {
    if n < 10 then ['0' + n as char]
    else
      var r := NatToString(n / 10) + ['0' + (n % 10) as char];
      assert r[..|r| - 1] == NatToString(n / 10);
      r
  }

  /** `str(i)` for an integer, with a leading `-` when negative. */
  function IntToString(i: int): string {
    if i < 0 then "-" + NatToString(-i) else NatToString(i)
  }
}
