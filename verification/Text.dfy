/** Decimal numerals and newline-terminated text, the two textual notions the printers and the operation names use. */
module Text {

  predicate NoNewline(s: string) {
    '\n' !in s
  }

  function Digit(n: nat): char
    requires n < 10
  {
    ('0' as int + n) as char
  }

  predicate IsDigit(c: char) {
    '0' <= c <= '9'
  }

  /** What `%d` prints for a non-negative number. */
  function Decimal(n: nat): string {
    if n < 10 then [Digit(n)] else Decimal(n / 10) + [Digit(n % 10)]
  }

  function ParseDecimal(s: string): nat {
    if s == "" then 0
    else
      var c := s[|s| - 1];
      10 * ParseDecimal(s[..|s| - 1]) + (if IsDigit(c) then c as int - '0' as int else 0)
  }

  lemma {:induction false} DecimalReadsBack(n: nat)
    ensures Decimal(n) != "" && (forall c | c in Decimal(n) :: IsDigit(c))
    ensures ParseDecimal(Decimal(n)) == n
  {
    if n < 10 {
      assert Decimal(n)[..0] == "";
    } else {
      DecimalReadsBack(n / 10);
      var p := Decimal(n / 10);
      assert (p + [Digit(n % 10)])[..|p|] == p;
    }
  }

  lemma {:induction false} DecimalIsInjective(m: nat, n: nat)
    requires Decimal(m) == Decimal(n)
    ensures m == n
  {
    DecimalReadsBack(m);
    DecimalReadsBack(n);
  }

  lemma LastOfConcat<T>(a: seq<T>, b: seq<T>)
    requires b != []
    ensures (a + b)[..|a + b| - 1] == a + b[..|b| - 1] && (a + b)[|a + b| - 1] == b[|b| - 1]
  {
  }

  /** Each line followed by a newline. */
  function Unlines(lines: seq<string>): string {
    if lines == [] then "" else Unlines(lines[..|lines| - 1]) + lines[|lines| - 1] + "\n"
  }

  function IndexOf(s: string, c: char): (i: nat)
    ensures i <= |s| && (forall j | 0 <= j < i :: s[j] != c)
    ensures i < |s| ==> s[i] == c
  {
    if s == "" || s[0] == c then 0 else 1 + IndexOf(s[1..], c)
  }

  /** The lines of a text: what lies between newlines, without an empty piece after the last one. */
  function Lines(text: string): seq<string>
    decreases |text|
  {
    if text == "" then []
    else
      var i := IndexOf(text, '\n');
      if i == |text| then [text] else [text[..i]] + Lines(text[i + 1..])
  }

  ghost predicate Terminated(text: string) {
    text == "" || text[|text| - 1] == '\n'
  }

  /** The first newline of a text cuts off its first line. */
  lemma {:induction false} FirstLine(text: string, i: nat)
    requires i < |text| && text[i] == '\n' && NoNewline(text[..i])
    ensures Lines(text) == [text[..i]] + Lines(text[i + 1..])
  {
    var k := IndexOf(text, '\n');
    assert forall j | 0 <= j < i :: text[j] == text[..i][j];
    assert k == i;
  }

  lemma {:induction false} LinesConcat(x: string, y: string)
    requires Terminated(x)
    ensures Lines(x + y) == Lines(x) + Lines(y)
    decreases |x|
  {
    if x == "" {
      assert x + y == y;
    } else {
      var i := IndexOf(x, '\n');
      var first, rest := x[..i], x[i + 1..];
      calc {
        Lines(x + y);
        { assert (x + y)[..i] == first && (x + y)[i + 1..] == rest + y; FirstLine(x + y, i); }
        [first] + Lines(rest + y);
        { LinesConcat(rest, y); }
        [first] + (Lines(rest) + Lines(y));
        ([first] + Lines(rest)) + Lines(y);
        { FirstLine(x, i); }
        Lines(x) + Lines(y);
      }
    }
  }

  lemma {:induction false} LinesHaveNoNewline(text: string)
    ensures forall i | 0 <= i < |Lines(text)| :: NoNewline(Lines(text)[i])
    decreases |text|
  {
    if text != "" {
      var i := IndexOf(text, '\n');
      if i < |text| {
        LinesHaveNoNewline(text[i + 1..]);
      }
    }
  }

  lemma UnlinesSnoc(lines: seq<string>, l: string)
    ensures Unlines(lines + [l]) == Unlines(lines) + l + "\n"
  {
    assert (lines + [l])[..|lines|] == lines;
  }

  lemma {:induction false} UnlinesTerminated(lines: seq<string>)
    ensures Terminated(Unlines(lines))
  {
  }

  lemma {:induction false} LineOf(l: string)
    requires NoNewline(l)
    ensures Lines(l + "\n") == [l]
  {
    var t := l + "\n";
    assert t[..|l|] == l && t[|l| + 1..] == "";
    FirstLine(t, |l|);
  }

  /** Printing lines and splitting the text again are inverse on newline-free lines. */
  lemma {:induction false} LinesOfUnlines(lines: seq<string>)
    requires forall l | l in lines :: NoNewline(l)
    ensures Lines(Unlines(lines)) == lines
  {
    if lines != [] {
      var init, l := lines[..|lines| - 1], lines[|lines| - 1];
      assert lines == init + [l];
      calc {
        Lines(Unlines(lines));
        { assert Unlines(lines) == Unlines(init) + (l + "\n"); }
        Lines(Unlines(init) + (l + "\n"));
        { UnlinesTerminated(init); LinesConcat(Unlines(init), l + "\n"); }
        Lines(Unlines(init)) + Lines(l + "\n");
        { LinesOfUnlines(init); LineOf(l); }
        init + [l];
      }
    }
  }

  lemma {:induction false} UnlinesConcat(a: seq<string>, b: seq<string>)
    ensures Unlines(a + b) == Unlines(a) + Unlines(b)
  {
    if b == [] {
      assert a + b == a;
    } else {
      var init, l := b[..|b| - 1], b[|b| - 1];
      LastOfConcat(a, b);
      calc {
        Unlines(a + b);
        Unlines(a + init) + l + "\n";
        { UnlinesConcat(a, init); }
        Unlines(a) + Unlines(init) + l + "\n";
        Unlines(a) + (Unlines(init) + l + "\n");
      }
    }
  }
}
