/** Text helpers the search core relies on: the line splitting of Rust's
    `str::lines` / `BufRead::lines`, the decimal rendering of `usize`
    (`to_string` and the `{}` format), and concatenation of sequences. */
module Strings {

  datatype Option<T> = None | Some(value: T)

  /** Position of the first `c` in `s`, or `|s|` when `s` has none. */
  function IndexOf(s: string, c: char): (k: nat)
    ensures k <= |s|
    ensures k < |s| ==> s[k] == c
    ensures forall j :: 0 <= j < k ==> s[j] != c
  {
    if s == [] then 0
    else if s[0] == c then 0
    else 1 + IndexOf(s[1..], c)
  }

  lemma IndexOfAfterPrefix(s: string, c: char, t: string)
    requires c !in s
    ensures IndexOf(s + [c] + t, c) == |s|
  {
    assert (s + [c] + t)[|s|] == c;
  }

  /** A character missing from positions `lo` to `hi` of `s` is missing from that slice. */
  lemma NotInSlice(s: string, ch: char, lo: nat, hi: nat)
    requires lo <= hi <= |s|
    requires forall j :: lo <= j < hi ==> s[j] != ch
    ensures ch !in s[lo..hi]
  {
    forall j | 0 <= j < hi - lo ensures s[lo..hi][j] != ch {
      assert s[lo..hi][j] == s[lo + j];
    }
  }

  // ---------------------------------------------------------------- lines

  /** Drops one carriage return that ends `s` (the `\r` of a `\r\n` ending). */
  function TrimCR(s: string): string {
    if |s| > 0 && s[|s| - 1] == '\r' then s[..|s| - 1] else s
  }

  /** The lines of `c` as Rust's `lines()` yields them: split at every `\n`,
      a `\r` directly before that `\n` removed, and no empty final line after
      a trailing `\n`. Only the empty text has no lines at all. */
  function Lines(c: string): (ls: seq<string>)
    ensures ls == [] <==> c == []
    ensures forall i :: 0 <= i < |ls| ==> '\n' !in ls[i]
    decreases |c|
  {
    if c == [] then []
    else
      var k := IndexOf(c, '\n');
      if k == |c| then [c]
      else [TrimCR(c[..k])] + Lines(c[k + 1..])
  }

  /** Every line written back followed by `\n`. */
  function JoinLines(ls: seq<string>): string {
    if ls == [] then [] else ls[0] + "\n" + JoinLines(ls[1..])
  }

  /** A line that `lines()` hands back unchanged once it is terminated. */
  predicate PlainLine(l: string) {
    '\n' !in l && (|l| == 0 || l[|l| - 1] != '\r')
  }

  /** The first line of `l + "\n" + t` is `l`, less a final `\r`. */
  lemma LinesCons(l: string, t: string)
    requires '\n' !in l
    ensures Lines(l + "\n" + t) == [TrimCR(l)] + Lines(t)
  {
    var c := l + "\n" + t;
    IndexOfAfterPrefix(l, '\n', t);
    assert c[..|l|] == l;
    assert c[|l| + 1..] == t;
  }

  /** Splitting text made of terminated plain lines gives those lines back. */
  lemma {:induction false} LinesOfJoinLines(ls: seq<string>)
    requires forall i :: 0 <= i < |ls| ==> PlainLine(ls[i])
    ensures Lines(JoinLines(ls)) == ls
  {
    if ls != [] {
      assert PlainLine(ls[0]);
      LinesCons(ls[0], JoinLines(ls[1..]));
      assert forall i :: 0 <= i < |ls[1..]| ==> PlainLine(ls[1..][i]) by {
        forall i | 0 <= i < |ls[1..]| ensures PlainLine(ls[1..][i]) {
          assert ls[1..][i] == ls[i + 1];
        }
      }
      LinesOfJoinLines(ls[1..]);
    }
  }

  /** Text without `\r` whose last line is terminated is rebuilt exactly
      from its lines. */
  lemma {:induction false} JoinLinesOfLines(c: string)
    requires '\r' !in c
    requires c == [] || c[|c| - 1] == '\n'
    ensures JoinLines(Lines(c)) == c
    decreases |c|
  {
    if c != [] {
      var k := IndexOf(c, '\n');
      assert k < |c|;
      var head := c[..k];
      var rest := c[k + 1..];
      assert c == head + "\n" + rest;
      NotInSlice(c, '\n', 0, k);
      NotInSlice(c, '\r', 0, k);
      NotInSlice(c, '\r', k + 1, |c|);
      assert TrimCR(head) == head;
      assert rest == [] || rest[|rest| - 1] == '\n' by {
        if rest != [] {
          assert rest[|rest| - 1] == c[|c| - 1];
        }
      }
      LinesCons(head, rest);
      JoinLinesOfLines(rest);
    }
  }

  // -------------------------------------------------------------- decimal

  predicate IsDigit(ch: char) {
    '0' <= ch <= '9'
  }

  function DigitChar(d: nat): (ch: char)
    requires d < 10
    ensures IsDigit(ch)
  {
    ('0' as int + d) as char
  }

  function DigitValue(ch: char): (d: nat)
    requires IsDigit(ch)
    ensures d < 10
  {
    ch as int - '0' as int
  }

  /** The decimal text of `n`, as `to_string` renders a `usize`. */
  function Decimal(n: nat): (s: string)
    ensures |s| > 0
    ensures forall i :: 0 <= i < |s| ==> IsDigit(s[i])
    ensures s[0] == '0' ==> n == 0
  {
    if n < 10 then [DigitChar(n)] else Decimal(n / 10) + [DigitChar(n % 10)]
  }

  /** The value of a string of decimal digits. */
  function ParseDecimal(s: string): nat
    requires forall i :: 0 <= i < |s| ==> IsDigit(s[i])
  {
    if s == [] then 0
    else 10 * ParseDecimal(s[..|s| - 1]) + DigitValue(s[|s| - 1])
  }

  /** Reading a rendered number back gives the number. */
  lemma {:induction false} ParseDecimalOfDecimal(n: nat)
    ensures ParseDecimal(Decimal(n)) == n
  {
    var s := Decimal(n);
    if n >= 10 {
      assert s[..|s| - 1] == Decimal(n / 10);
      ParseDecimalOfDecimal(n / 10);
    }
  }

  lemma DecimalHasNo(n: nat, c: char)
    requires !IsDigit(c)
    ensures c !in Decimal(n)
  {
  }

  // --------------------------------------------------------------- concat

  lemma AppendAssoc<T>(a: seq<T>, b: seq<T>, c: seq<T>)
    ensures a + b + c == a + (b + c)
  {
  }

  /** The elements of `ss` laid end to end, in order. */
  function Concat<T>(ss: seq<seq<T>>): seq<T> {
    if ss == [] then [] else Concat(ss[..|ss| - 1]) + ss[|ss| - 1]
  }

  lemma ConcatOne<T>(s: seq<T>)
    ensures Concat([s]) == s
  {
    assert [s][..0] == [];
  }

  lemma ConcatSnoc<T>(ss: seq<seq<T>>, s: seq<T>)
    ensures Concat(ss + [s]) == Concat(ss) + s
  {
    assert (ss + [s])[..|ss|] == ss;
  }

  lemma {:induction false} ConcatSplit<T>(a: seq<seq<T>>, b: seq<seq<T>>)
    ensures Concat(a + b) == Concat(a) + Concat(b)
    decreases |b|
  {
    if b == [] {
      assert a + b == a;
    } else {
      var n := |b| - 1;
      assert (a + b)[..|a + b| - 1] == a + b[..n];
      assert (a + b)[|a + b| - 1] == b[n];
      ConcatSplit(a, b[..n]);
    }
  }
}
