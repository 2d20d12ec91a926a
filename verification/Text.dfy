/** Text helpers of Go's `strings` package, on ASCII. */
module Text {

  function LowerChar(c: char): char
  {
    if 'A' <= c <= 'Z' then c - 'A' + 'a' else c
  }

  function Lower(s: string): string
  {
    if s == [] then [] else [LowerChar(s[0])] + Lower(s[1..])
  }

  /** Lowering keeps every character but the capitals, which move 32 places up. */
  lemma {:induction false} LowerExact(s: string, i: nat)
    requires i < |s|
    ensures |Lower(s)| == |s|
    ensures 'A' <= s[i] <= 'Z' ==> Lower(s)[i] as int == s[i] as int + 32
    ensures !('A' <= s[i] <= 'Z') ==> Lower(s)[i] == s[i]
  {
    if |s| > 1 {
      LowerExact(s[1..], if i > 0 then i - 1 else 0);
    }
  }

  predicate EqualFold(a: string, b: string)
  {
    Lower(a) == Lower(b)
  }

  /** Two pairs of names join to one text exactly if they are one pair, or a dash is read at two places of it. */
  lemma JoinExact(a: string, b: string, c: string, d: string)
    ensures a + "-" + b == c + "-" + d <==>
              || (a == c && b == d)
              || (exists w :: c == a + "-" + w && b == w + "-" + d)
              || (exists w :: a == c + "-" + w && d == w + "-" + b)
  {
    if a + "-" + b == c + "-" + d {
      JoinedTwice(a, b, c, d);
      JoinedTwice(c, d, a, b);
    }
    if w :| c == a + "-" + w && b == w + "-" + d {
      assert a + "-" + (w + "-" + d) == (a + "-" + w) + "-" + d;
    }
    if w :| a == c + "-" + w && d == w + "-" + b {
      assert c + "-" + (w + "-" + b) == (c + "-" + w) + "-" + b;
    }
  }

  lemma JoinedTwice(a: string, b: string, c: string, d: string)
    requires a + "-" + b == c + "-" + d
    ensures |a| == |c| ==> a == c && b == d
    ensures |a| < |c| ==> exists w :: c == a + "-" + w && b == w + "-" + d
  {
    var s, n := a + "-" + b, |c| - |a| - 1;
    if |a| == |c| {
      assert a == s[..|a|] == c && b == s[|a| + 1..] == d;
    } else if n >= 0 {
      var w := b[..n];
      assert s[|c|] == '-' && s[..|c|] == c && s[|c| + 1..] == d;
      assert c == a + "-" + w;
      assert b == w + "-" + d;
    }
  }
}
