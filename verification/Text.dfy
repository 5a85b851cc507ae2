/** Decimal numerals, and strings cut into lines and joined again; ids stamped with a counter and a time, as the governance
    engine and the orders service draw them, which are different as long as their counters are. Shared by both. */
module Text {

  function Digit(d: nat): char
    requires d < 10
  {
    ("0123456789")[d]
  }

  /** The decimal numeral of n, as template strings render it. */
  function Decimal(n: nat): (s: string)
    ensures s != [] && forall i :: 0 <= i < |s| ==> '0' <= s[i] <= '9'
  {
    if n < 10 then [Digit(n)] else Decimal(n / 10) + [Digit(n % 10)]
  }

  lemma {:induction false} DecimalInjective(m: nat, n: nat)
    requires Decimal(m) == Decimal(n)
    ensures m == n
  {
    var s := Decimal(m);
    if m >= 10 && n >= 10 {
      assert Decimal(m / 10) == s[..|s| - 1] == Decimal(n / 10);
      DecimalInjective(m / 10, n / 10);
      DigitInjective(m % 10, n % 10);
    } else if m < 10 && n < 10 {
      DigitInjective(m, n);
    }
  }

  lemma DigitInjective(d: nat, e: nat)
    requires d < 10 && e < 10
    ensures Digit(d) == Digit(e) ==> d == e
  {}

  ghost predicate AllDigits(s: string) {
    forall i :: 0 <= i < |s| ==> '0' <= s[i] <= '9'
  }

  lemma ShorterNumeral(a: string, x: string, b: string, y: string)
    requires AllDigits(b) && |a| < |b|
    ensures a + "-" + x != b + "-" + y
  {
    assert (a + "-" + x)[|a|] == '-';
    assert (b + "-" + y)[|a|] == b[|a|];
  }

  /** A numeral followed by a hyphen determines its number. */
  lemma {:induction false} NumeralPrefix(m: nat, x: string, n: nat, y: string)
    requires Decimal(m) + "-" + x == Decimal(n) + "-" + y
    ensures m == n
  {
    var a, b := Decimal(m), Decimal(n);
    if |a| < |b| {
      ShorterNumeral(a, x, b, y);
    } else if |b| < |a| {
      ShorterNumeral(b, y, a, x);
    } else {
      var s := a + "-" + x;
      assert a == s[..|a|] && b == s[..|b|];
      DecimalInjective(m, n);
    }
  }

  /** An id as the services make them: a prefix, a running number and a time. */
  function StampedId(prefix: string, counter: nat, now: nat): string {
    prefix + (Decimal(counter) + "-" + Decimal(now))
  }

  ghost predicate FromCounter(prefix: string, id: string, counter: nat) {
    exists c: nat, now: nat :: 1 <= c <= counter && id == StampedId(prefix, c, now)
  }

  lemma CounterGrows(prefix: string, id: string, counter: nat)
    requires FromCounter(prefix, id, counter)
    ensures FromCounter(prefix, id, counter + 1)
  {
    hide StampedId;
    var c: nat, now: nat :| 1 <= c <= counter && id == StampedId(prefix, c, now);
    assert 1 <= c <= counter + 1;
  }

  /** The next number makes an id nothing has yet. */
  lemma NextIdIsNew(prefix: string, id: string, counter: nat, now: nat)
    requires FromCounter(prefix, id, counter)
    ensures id != StampedId(prefix, counter + 1, now)
  {
    var c: nat, t: nat :| 1 <= c <= counter && id == StampedId(prefix, c, t);
    if id == StampedId(prefix, counter + 1, now) {
      assert id[|prefix|..] == Decimal(c) + "-" + Decimal(t);
      assert id[|prefix|..] == Decimal(counter + 1) + "-" + Decimal(now);
      NumeralPrefix(counter + 1, Decimal(now), c, Decimal(t));
    }
  }

  /** The lines of a text: one more than it has newlines. */
  function Split(s: string): (lines: seq<string>)
    ensures lines != []
  {
    if s == "" then [""] else
      var lines, c := Split(s[..|s| - 1]), s[|s| - 1];
      if c == '\n' then lines + [""] else lines[..|lines| - 1] + [lines[|lines| - 1] + [c]]
  }

  function Join(lines: seq<string>): string {
    if lines == [] then ""
    else if |lines| == 1 then lines[0]
    else Join(lines[..|lines| - 1]) + "\n" + lines[|lines| - 1]
  }

  ghost predicate SingleLine(s: string) {
    '\n' !in s
  }

  ghost predicate AreLines(lines: seq<string>) {
    forall i :: 0 <= i < |lines| ==> SingleLine(lines[i])
  }

  lemma {:induction false} SplitYieldsLines(s: string)
    ensures AreLines(Split(s))
  {
    if s != "" {
      SplitYieldsLines(s[..|s| - 1]);
    }
  }

  lemma {:induction false} JoinLastGrows(lines: seq<string>, c: char)
    requires lines != []
    ensures Join(lines[..|lines| - 1] + [lines[|lines| - 1] + [c]]) == Join(lines) + [c]
  {
    var grown := lines[..|lines| - 1] + [lines[|lines| - 1] + [c]];
    assert grown[..|lines| - 1] == lines[..|lines| - 1];
    if |lines| > 1 {
      assert Join(grown) == Join(lines[..|lines| - 1]) + "\n" + (lines[|lines| - 1] + [c]);
    }
  }

  /** Joining the lines of a text gives the text back. */
  lemma {:induction false} JoinOfSplit(s: string)
    ensures Join(Split(s)) == s
  {
    if s != "" {
      var init, c := s[..|s| - 1], s[|s| - 1];
      var lines := Split(init);
      JoinOfSplit(init);
      assert s == init + [c];
      if c == '\n' {
        assert (lines + [""])[..|lines|] == lines;
      } else {
        JoinLastGrows(lines, c);
      }
    }
  }

  lemma {:induction false} SplitAppendLine(s: string, line: string)
    requires SingleLine(line)
    ensures var lines := Split(s);
      Split(s + line) == lines[..|lines| - 1] + [lines[|lines| - 1] + line]
  {
    var lines := Split(s);
    if line == "" {
      assert s + line == s;
      assert lines[|lines| - 1] + line == lines[|lines| - 1];
    } else {
      var init, c := line[..|line| - 1], line[|line| - 1];
      SplitAppendLine(s, init);
      assert (s + line)[..|s + line| - 1] == s + init;
      assert (s + line)[|s + line| - 1] == c;
      assert c in line;
      assert lines[|lines| - 1] + init + [c] == lines[|lines| - 1] + line;
    }
  }

  /** Splitting joined lines gives the lines back. */
  lemma {:induction false} SplitOfJoin(lines: seq<string>)
    requires lines != [] && AreLines(lines)
    ensures Split(Join(lines)) == lines
  {
    var init, last := lines[..|lines| - 1], lines[|lines| - 1];
    assert "" + last == last;
    if |lines| == 1 {
      SplitAppendLine("", last);
    } else {
      var text := Join(init) + "\n";
      assert Join(lines) == text + last;
      hide Join, Split;
      SplitOfJoin(init);
      SplitAtBreak(Join(init));
      SplitAppendLine(text, last);
      assert (init + [""])[..|init|] == init;
    }
  }

  lemma SplitAtBreak(s: string)
    ensures Split(s + "\n") == Split(s) + [""]
  {
    assert (s + "\n")[..|s|] == s;
  }

  lemma {:induction false} JoinOfConcat(a: seq<string>, b: seq<string>)
    requires a != [] && b != []
    ensures Join(a + b) == Join(a) + "\n" + Join(b)
  {
    var init, last := b[..|b| - 1], b[|b| - 1];
    assert (a + b)[..|a + b| - 1] == a + init;
    if init == [] {
      assert a + init == a;
    } else {
      JoinOfConcat(a, init);
    }
  }
}
