/**
 Making a string a Kubernetes name: labels of RFC 1123 section 2.1, at most 63 bytes each and 253 in
 all. A string is a sequence of Unicode code points; what survives the cleaning is ASCII, so from
 there on lengths are bytes.
 */
module K8sName {
  import opened Text

  const MAX_LABEL := 63
  const MAX_NAME := 253

  // ----- Labels -----

  predicate Alnum(c: char)
  {
    'a' <= c <= 'z' || '0' <= c <= '9'
  }

  predicate LabelChar(c: char)
  {
    Alnum(c) || c == '-'
  }

  /**
   `unicode.ToLower` as far as the result is ASCII: beside the capital letters these are the Kelvin
   sign and the capital I with a dot.
   */
  function Fold(c: char): char
  {
    if c == '\U{212A}' then 'k' else if c == '\U{0130}' then 'i' else LowerChar(c)
  }

  function Keep(s: string): string
  {
    if s == [] then []
    else Keep(s[..|s| - 1]) + (if LabelChar(Fold(s[|s| - 1])) then [Fold(s[|s| - 1])] else [])
  }

  function TrimLeft(s: string): string
  {
    if s != [] && s[0] == '-' then TrimLeft(s[1..]) else s
  }

  function TrimRight(s: string): string
  {
    if s != [] && s[|s| - 1] == '-' then TrimRight(s[..|s| - 1]) else s
  }

  predicate LabelChars(s: string)
  {
    forall i | 0 <= i < |s| :: LabelChar(s[i])
  }

  lemma {:induction false} KeepFacts(s: string)
    ensures LabelChars(Keep(s))
  {
    if s != [] {
      KeepFacts(s[..|s| - 1]);
    }
  }

  lemma {:induction false} TrimLeftFacts(s: string)
    requires LabelChars(s)
    ensures LabelChars(TrimLeft(s)) && (TrimLeft(s) != [] ==> TrimLeft(s)[0] != '-')
  {
    if s != [] && s[0] == '-' {
      TrimLeftFacts(s[1..]);
    }
  }

  lemma {:induction false} TrimRightFacts(s: string)
    ensures |TrimRight(s)| <= |s| && TrimRight(s) == s[..|TrimRight(s)|]
    ensures TrimRight(s) != [] ==> TrimRight(s)[|TrimRight(s)| - 1] != '-'
    ensures s != [] && s[0] != '-' ==> TrimRight(s) != []
  {
    if s != [] && s[|s| - 1] == '-' {
      TrimRightFacts(s[..|s| - 1]);
    }
  }

  function OrA(s: string): string
  {
    if s == "" then "a" else s
  }

  function Clean(s: string): string
  {
    var out := OrA(TrimRight(TrimLeft(Keep(s))));
    if |out| > MAX_LABEL then OrA(TrimRight(out[..MAX_LABEL])) else out
  }

  /** A label of any length. */
  predicate LongLabel(s: string)
  {
    s != [] && LabelChars(s) && Alnum(s[0]) && Alnum(s[|s| - 1])
  }

  /** A label of RFC 1123 section 2.1. */
  predicate ValidLabel(s: string)
  {
    LongLabel(s) && |s| <= 63
  }

  lemma PrefixOfLabel(s: string, n: nat)
    requires LongLabel(s) && 1 <= n <= |s|
    ensures LongLabel(TrimRight(s[..n])) && |TrimRight(s[..n])| <= n
  {
    TrimRightFacts(s[..n]);
    var cut := TrimRight(s[..n]);
    assert forall i | 0 <= i < |cut| :: cut[i] == s[i];
  }

  lemma TrimRightIsLabel(s: string)
    requires LabelChars(s) && s != [] && s[0] != '-'
    ensures LongLabel(TrimRight(s))
  {
    TrimRightFacts(s);
    var r := TrimRight(s);
    assert forall i | 0 <= i < |r| :: r[i] == s[i];
  }

  lemma TrimmedIsLabel(kept: string)
    requires LabelChars(kept)
    ensures LongLabel(OrA(TrimRight(TrimLeft(kept))))
  {
    TrimLeftFacts(kept);
    var left := TrimLeft(kept);
    if left == [] {
      assert TrimRight(left) == "";
    } else {
      TrimRightIsLabel(left);
    }
  }

  lemma CleanIsValid(s: string)
    ensures ValidLabel(Clean(s))
  {
    KeepFacts(s);
    TrimmedIsLabel(Keep(s));
    var out := OrA(TrimRight(TrimLeft(Keep(s))));
    if |out| > MAX_LABEL {
      PrefixOfLabel(out, MAX_LABEL);
    }
  }

  lemma {:induction false} KeepOfLabel(s: string)
    requires LabelChars(s)
    ensures Keep(s) == s
  {
    if s != [] {
      KeepOfLabel(s[..|s| - 1]);
      assert s == s[..|s| - 1] + [s[|s| - 1]];
    }
  }

  lemma CleanOfValid(s: string)
    requires ValidLabel(s)
    ensures Clean(s) == s
  {
    KeepOfLabel(s);
  }

  method CleanLabel(s: string) returns (out: string)
    ensures out == Clean(s)
  {
    out := "";
    for i := 0 to |s|
      invariant out == Keep(s[..i])
    {
      var ch := Fold(s[i]);
      if ('a' <= ch && ch <= 'z') || ('0' <= ch && ch <= '9') || ch == '-' {
        out := out + [ch];
      }
      assert s[..i + 1][..i] == s[..i];
    }
    assert s[..|s|] == s;
    out := TrimRight(TrimLeft(out));
    if out == "" {
      out := "a";
    }
    if |out| > MAX_LABEL {
      out := TrimRight(out[..MAX_LABEL]);
      if out == "" {
        out := "a";
      }
    }
  }

  // ----- Splitting and joining -----

  function Split(s: string): (r: seq<string>)
    ensures r != []
  {
    if s == [] then [""]
    else
      var rest := Split(s[1..]);
      if s[0] == '.' then [""] + rest else [[s[0]] + rest[0]] + rest[1..]
  }

  function Join(parts: seq<string>): string
  {
    if parts == [] then ""
    else if |parts| == 1 then parts[0]
    else parts[0] + "." + Join(parts[1..])
  }

  lemma {:induction false} JoinSplit(s: string)
    ensures Join(Split(s)) == s
  {
    if s != [] {
      var rest := Split(s[1..]);
      JoinSplit(s[1..]);
      if s[0] == '.' {
        assert ([""] + rest)[1..] == rest;
      } else if |rest| > 1 {
        var parts := Split(s);
        assert parts[1..] == rest[1..];
        assert Join(parts) == [s[0]] + (rest[0] + "." + Join(rest[1..]));
      }
      assert s == [s[0]] + s[1..];
    }
  }

  predicate NoDots(parts: seq<string>)
  {
    forall i | 0 <= i < |parts| :: '.' !in parts[i]
  }

  lemma {:induction false} SplitWord(w: string, s: string)
    requires '.' !in w
    ensures Split(w) == [w]
    ensures Split(w + "." + s) == [w] + Split(s)
    decreases w
  {
    if w == [] {
      assert w + "." + s == ['.'] + s;
      assert (['.'] + s)[1..] == s;
    } else {
      SplitWord(w[1..], s);
      assert '.' !in w[1..];
      var t := w + "." + s;
      assert t[1..] == w[1..] + "." + s && t[0] == w[0];
      assert w == [w[0]] + w[1..];
      assert Split(t) == [[w[0]] + w[1..]] + ([w[1..]] + Split(s))[1..];
    }
  }

  lemma {:induction false} SplitJoin(parts: seq<string>)
    requires parts != [] && NoDots(parts)
    ensures Split(Join(parts)) == parts
  {
    if |parts| == 1 {
      SplitWord(parts[0], "");
    } else {
      SplitJoin(parts[1..]);
      SplitWord(parts[0], Join(parts[1..]));
      assert parts == [parts[0]] + parts[1..];
    }
  }

  // ----- Truncating -----

  /** The bytes before the last label: the other labels and all dots. */
  function BeforeLast(parts: seq<string>): nat
    requires parts != []
  {
    if |parts| == 1 then 0 else |parts[0]| + 1 + BeforeLast(parts[1..])
  }

  lemma {:induction false} JoinLength(parts: seq<string>)
    requires parts != []
    ensures |Join(parts)| == BeforeLast(parts) + |parts[|parts| - 1]|
  {
    if |parts| > 1 {
      JoinLength(parts[1..]);
    }
  }

  lemma {:induction false} BeforeLastIgnoresLast(parts: seq<string>, last: string)
    requires parts != []
    ensures BeforeLast(parts[|parts| - 1 := last]) == BeforeLast(parts)
  {
    if |parts| > 1 {
      BeforeLastIgnoresLast(parts[1..], last);
      assert parts[|parts| - 1 := last][1..] == parts[1..][|parts| - 2 := last];
    }
  }

  /** One pass of the truncation loop over the last label of a name of `length` bytes. */
  function Shrink(last: string, length: nat): string
    requires length > MAX_NAME
  {
    var over := length - MAX_NAME;
    var wanted := if |last| - over < 1 then 1 else |last| - over;
    OrA(TrimRight(last[..if wanted > |last| then |last| else wanted]))
  }

  function Pass(parts: seq<string>): (r: seq<string>)
    requires parts != []
    ensures |r| == |parts|
  {
    if |Join(parts)| <= MAX_NAME then parts
    else parts[|parts| - 1 := Shrink(parts[|parts| - 1], |Join(parts)|)]
  }

  /** The labels after `k` passes of the loop. */
  function Passes(parts: seq<string>, k: nat): (r: seq<string>)
    requires parts != []
    ensures |r| == |parts|
  {
    if k == 0 then parts else Pass(Passes(parts, k - 1))
  }

  function CleanAll(parts: seq<string>): (r: seq<string>)
    ensures |r| == |parts|
    ensures forall i | 0 <= i < |parts| :: r[i] == Clean(parts[i])
  {
    seq(|parts|, i requires 0 <= i < |parts| => Clean(parts[i]))
  }

  function Labels(name: string): (r: seq<string>)
    ensures r != []
  {
    CleanAll(Split(name))
  }

  /** What a caller can check before: the cleaned labels leave a byte for the last one. */
  predicate Fits(name: string)
  {
    BeforeLast(Labels(name)) <= MAX_NAME - 1
  }

  predicate AllValid(parts: seq<string>)
  {
    forall i | 0 <= i < |parts| :: ValidLabel(parts[i])
  }

  lemma LabelsAreValid(name: string)
    ensures AllValid(Labels(name))
  {
    forall i | 0 <= i < |Labels(name)| ensures ValidLabel(Labels(name)[i]) {
      CleanIsValid(Split(name)[i]);
    }
  }

  /** A pass keeps the labels valid and makes the name as long as it may be, or as short as it can. */
  lemma PassFacts(parts: seq<string>)
    requires parts != [] && AllValid(parts)
    ensures AllValid(Pass(parts)) && BeforeLast(Pass(parts)) == BeforeLast(parts)
    ensures BeforeLast(parts) <= MAX_NAME - 1 ==> |Join(Pass(parts))| <= MAX_NAME
    ensures BeforeLast(parts) > MAX_NAME - 1 ==> |Pass(parts)[|parts| - 1]| == 1
  {
    JoinLength(parts);
    if |Join(parts)| > MAX_NAME {
      var last := parts[|parts| - 1];
      var over := |Join(parts)| - MAX_NAME;
      PrefixOfLabel(last, if |last| - over < 1 then 1 else |last| - over);
      BeforeLastIgnoresLast(parts, Shrink(last, |Join(parts)|));
      JoinLength(Pass(parts));
    }
  }

  /** The labels before the last leave no room. */
  predicate NoRoom(parts: seq<string>)
    requires parts != []
  {
    AllValid(parts) && BeforeLast(parts) > MAX_NAME - 1
  }

  lemma NoRoomIsTooLong(parts: seq<string>)
    requires parts != [] && NoRoom(parts)
    ensures |Join(parts)| > MAX_NAME
  {
    JoinLength(parts);
  }

  lemma PassOfPass(parts: seq<string>)
    requires parts != [] && NoRoom(parts)
    ensures Pass(Pass(parts)) == Pass(parts)
  {
    PassFacts(parts);
    NoRoomIsTooLong(Pass(parts));
    var last := Pass(parts)[|parts| - 1];
    assert ValidLabel(last);
    assert Shrink(last, |Join(Pass(parts))|) == last;
  }

  /** Then every pass leaves the name too long, and all passes leave the same labels. */
  lemma {:induction false} NeverShortEnough(parts: seq<string>, k: nat)
    requires parts != [] && NoRoom(parts)
    ensures NoRoom(Passes(parts, k)) && |Join(Passes(parts, k))| > MAX_NAME
    ensures k > 0 ==> Passes(parts, k) == Pass(parts)
  {
    if k > 0 {
      NeverShortEnough(parts, k - 1);
      PassFacts(Passes(parts, k - 1));
      PassOfPass(parts);
    }
    NoRoomIsTooLong(Passes(parts, k));
  }

  lemma OnePass(name: string)
    requires Fits(name)
    ensures |Join(Passes(Labels(name), 1))| <= MAX_NAME
  {
    LabelsAreValid(name);
    PassFacts(Labels(name));
    assert Passes(Labels(name), 0) == Labels(name);
  }

  /** The truncation loop ends exactly if the name fits, and then after at most one pass. */
  lemma EndsIffFits(name: string)
    ensures (exists k :: |Join(Passes(Labels(name), k))| <= MAX_NAME) <==> Fits(name)
    ensures Fits(name) ==> |Join(Passes(Labels(name), 1))| <= MAX_NAME
  {
    if Fits(name) {
      OnePass(name);
    } else {
      LabelsAreValid(name);
      forall k ensures |Join(Passes(Labels(name), k))| > MAX_NAME {
        NeverShortEnough(Labels(name), k);
      }
    }
  }

  lemma CleanOfEmpty()
    ensures Clean("") == "a"
  {
    assert Keep("") == "" && TrimLeft("") == "" && TrimRight("") == "";
  }

  function Dots(n: nat): string
  {
    if n == 0 then "" else "." + Dots(n - 1)
  }

  lemma {:induction false} DotsSplit(n: nat)
    ensures |Split(Dots(n))| == n + 1 && forall i | 0 <= i <= n :: Split(Dots(n))[i] == ""
  {
    if n > 0 {
      DotsSplit(n - 1);
      assert Dots(n)[1..] == Dots(n - 1);
    }
  }

  lemma {:induction false} OneByteEach(parts: seq<string>)
    requires parts != [] && forall i | 0 <= i < |parts| :: |parts[i]| == 1
    ensures BeforeLast(parts) == 2 * (|parts| - 1)
  {
    if |parts| > 1 {
      OneByteEach(parts[1..]);
    }
  }

  /** Such a name: nothing but dots, 127 of them or more. Every empty label becomes "a". */
  lemma DotsLoopForEver(n: nat, k: nat)
    requires n >= 127 && k > 0
    ensures |Join(Passes(Labels(Dots(n)), k))| > MAX_NAME
  {
    DotsSplit(n);
    CleanOfEmpty();
    var parts := Labels(Dots(n));
    assert forall i | 0 <= i < |parts| :: parts[i] == "a";
    OneByteEach(parts);
    LoopsForEver(Dots(n), k);
  }

  /** Otherwise it runs on for ever in one state. */
  lemma LoopsForEver(name: string, k: nat)
    requires !Fits(name) && k > 0
    ensures Passes(Labels(name), k) == Pass(Labels(name)) && |Join(Passes(Labels(name), k))| > MAX_NAME
  {
    LabelsAreValid(name);
    NeverShortEnough(Labels(name), k);
  }

  // ----- The name -----

  function Name(name: string): string
  {
    Join(Pass(Labels(name)))
  }

  /** The truncation loop. */
  method Truncate(parts: array<string>) returns (joined: string)
    requires parts.Length > 0 && AllValid(parts[..]) && BeforeLast(parts[..]) <= MAX_NAME - 1
    modifies parts
    ensures parts[..] == Pass(old(parts[..])) && joined == Join(parts[..])
  {
    ghost var labels := parts[..];
    PassFacts(labels);
    joined := Join(parts[..]);
    while |joined| > MAX_NAME
      invariant joined == Join(parts[..])
      invariant if |joined| > MAX_NAME then parts[..] == labels else parts[..] == Pass(labels)
      decreases |joined|
    {
      var last := parts[parts.Length - 1];
      var over := |joined| - MAX_NAME;
      var newLen := |last| - over;
      if newLen < 1 {
        newLen := 1;
      }
      if newLen > |last| {
        newLen := |last|;
      }
      last := TrimRight(last[..newLen]);
      if last == "" {
        last := "a";
      }
      parts[parts.Length - 1] := last;
      assert last == Shrink(labels[parts.Length - 1], |joined|);
      assert parts[..] == labels[parts.Length - 1 := last];
      joined := Join(parts[..]);
    }
  }

  lemma JoinOne(p: string)
    ensures Join([p]) == p
  {
  }

  lemma EmptyName()
    ensures Name("") == "a"
  {
    var labels := Labels("");
    assert Split("") == [""];
    CleanOfEmpty();
    assert |labels| == 1 && labels[0] == Clean("");
    assert labels == [labels[0]];
    JoinOne(labels[0]);
    assert |Join(labels)| == 1;
    assert Pass(labels) == labels;
  }

  method CleanPart(p: string) returns (r: string)
    ensures r == Clean(p)
  {
    if p == "" {
      CleanOfEmpty();
      r := "a";
    } else {
      r := CleanLabel(p);
    }
  }

  /** The cleaning loop. */
  method CleanParts(parts: array<string>)
    modifies parts
    ensures parts[..] == CleanAll(old(parts[..]))
  {
    ghost var goal := CleanAll(parts[..]);
    for i := 0 to parts.Length
      invariant forall j | 0 <= j < i :: parts[j] == goal[j]
      invariant forall j | i <= j < parts.Length :: parts[j] == old(parts[j])
    {
      var part := CleanPart(parts[i]);
      assert part == goal[i];
      parts[i] := part;
    }
  }

  /** For the names on which its loop ends. */
  method EnsureK8sName(name: string) returns (r: string)
    requires Fits(name)
    ensures r == Name(name)
  {
    if name == "" {
      EmptyName();
      return "a";
    }
    LabelsAreValid(name);
    var split := Split(name);
    var parts := new string[|split|](i requires 0 <= i < |split| => split[i]);
    assert parts[..] == split;
    CleanParts(parts);
    r := Truncate(parts);
  }

  /** A DNS-1123 name: dot-separated valid labels, at most 253 bytes. */
  predicate ValidName(s: string)
  {
    |s| <= 253 && AllValid(Split(s))
  }

  lemma NoDotsInLabels(parts: seq<string>)
    requires AllValid(parts)
    ensures NoDots(parts)
  {
    forall i | 0 <= i < |parts| ensures '.' !in parts[i] {
      assert LabelChars(parts[i]);
    }
  }

  lemma JoinedIsValid(parts: seq<string>)
    requires parts != [] && AllValid(parts) && |Join(parts)| <= MAX_NAME
    ensures ValidName(Join(parts)) && |Split(Join(parts))| == |parts|
  {
    NoDotsInLabels(parts);
    SplitJoin(parts);
  }

  /** The result is valid and has as many labels as the input has pieces. */
  lemma ResultIsValid(name: string)
    requires Fits(name)
    ensures ValidName(Name(name)) && |Split(Name(name))| == |Split(name)|
  {
    LabelsAreValid(name);
    PassFacts(Labels(name));
    JoinedIsValid(Pass(Labels(name)));
  }

  /** Valid names stay as they are. */
  lemma ValidUnchanged(s: string)
    requires ValidName(s)
    ensures Fits(s) && Name(s) == s
  {
    forall i | 0 <= i < |Split(s)| ensures Clean(Split(s)[i]) == Split(s)[i] {
      CleanOfValid(Split(s)[i]);
    }
    assert Labels(s) == Split(s);
    JoinSplit(s);
    JoinLength(Split(s));
  }

  // ----- What stays of a name -----

  predicate Dashes(s: string)
  {
    forall i | 0 <= i < |s| :: s[i] == '-'
  }

  lemma {:induction false} TrimLeftDashes(dashes: string, s: string)
    requires Dashes(dashes) && (s != [] ==> s[0] != '-')
    ensures TrimLeft(dashes + s) == s
  {
    if dashes == [] {
      assert dashes + s == s;
    } else {
      TrimLeftDashes(dashes[1..], s);
      assert (dashes + s)[1..] == dashes[1..] + s;
    }
  }

  lemma {:induction false} TrimRightDashes(s: string, dashes: string)
    requires Dashes(dashes) && (s != [] ==> s[|s| - 1] != '-')
    ensures TrimRight(s + dashes) == s
  {
    if dashes == [] {
      assert s + dashes == s;
    } else {
      var init := dashes[..|dashes| - 1];
      TrimRightDashes(s, init);
      assert (s + dashes)[..|s + dashes| - 1] == s + init;
    }
  }

  /** A label is what is left between the dashes at both ends, or "a" if that is nothing. */
  lemma CleanKeepsCore(s: string, left: string, core: string, right: string)
    requires Keep(s) == left + core + right && Dashes(left) && Dashes(right)
    ensures ValidLabel(core) ==> Clean(s) == core
    ensures LongLabel(core) && |core| > 63 ==> Clean(s) == TrimRight(core[..63])
    ensures core == "" ==> Clean(s) == "a"
  {
    if LongLabel(core) {
      assert left + core + right == left + (core + right);
      TrimLeftDashes(left, core + right);
      TrimRightDashes(core, right);
      PrefixOfLabel(core, if |core| > 63 then 63 else |core|);
    }
    if core == "" {
      assert left + core + right == (left + right) + "";
      TrimLeftDashes(left + right, "");
    }
  }

  lemma {:induction false} TrimRightOfTail(s: string, t: string)
    requires TrimRight(t) != []
    ensures TrimRight(s + t) == s + TrimRight(t)
  {
    if t[|t| - 1] == '-' {
      var init := t[..|t| - 1];
      TrimRightOfTail(s, init);
      assert (s + t)[..|s + t| - 1] == s + init;
    }
  }

  /** The labels before the last, each with the dot behind it. */
  function Front(parts: seq<string>): string
    requires parts != []
  {
    if |parts| == 1 then "" else parts[0] + "." + Front(parts[1..])
  }

  lemma {:induction false} JoinFront(parts: seq<string>, last: string)
    requires parts != []
    ensures Join(parts[|parts| - 1 := last]) == Front(parts) + last
    ensures |Front(parts)| == BeforeLast(parts)
  {
    var n := |parts| - 1;
    if n > 0 {
      JoinFront(parts[1..], last);
      assert parts[n := last][1..] == parts[1..][n - 1 := last] && parts[n := last][0] == parts[0];
      assert parts[0] + "." + (Front(parts[1..]) + last) == parts[0] + "." + Front(parts[1..]) + last;
    }
  }

  /** Shortening the last label cuts the whole name. */
  lemma ShrinkIsCut(front: string, last: string)
    requires ValidLabel(last) && |front| < 253 < |front + last|
    ensures front + Shrink(last, |front + last|) == TrimRight((front + last)[..253])
  {
    var k := 253 - |front|;
    assert (front + last)[..253] == front + last[..k];
    PrefixOfLabel(last, k);
    TrimRightOfTail(front, last[..k]);
  }

  lemma PassIsCut(parts: seq<string>)
    requires parts != [] && AllValid(parts) && BeforeLast(parts) <= 252 && |Join(parts)| > 253
    ensures Join(Pass(parts)) == TrimRight(Join(parts)[..253])
  {
    var last := parts[|parts| - 1];
    JoinFront(parts, last);
    assert parts[|parts| - 1 := last] == parts;
    JoinFront(parts, Shrink(last, |Join(parts)|));
    ShrinkIsCut(Front(parts), last);
  }

  /** A name that is too long is its cleaned labels, cut after 253 bytes, without the dashes that leaves at the end. */
  lemma LongNameIsCut(name: string)
    requires Fits(name) && |Join(Labels(name))| > 253
    ensures Name(name) == TrimRight(Join(Labels(name))[..253])
  {
    LabelsAreValid(name);
    PassIsCut(Labels(name));
  }

  // ----- Capitals and dropped characters -----

  /** What cleaning makes of one character: letters and digits stay, capitals as small letters, most others go. */
  lemma KeepOne(c: char)
    ensures Keep([c]) == if 'A' <= c <= 'Z' then [(c as int + 32) as char]
                         else if 'a' <= c <= 'z' || '0' <= c <= '9' || c == '-' then [c]
                         else if c == '\U{212A}' then "k" else if c == '\U{0130}' then "i" else ""
  {
    assert [c][..0] == "";
    assert Keep([c]) == Keep("") + if LabelChar(Fold(c)) then [Fold(c)] else [];
  }

  /** And every character is treated by itself. */
  lemma {:induction false} KeepAppend(s: string, t: string)
    ensures Keep(s + t) == Keep(s) + Keep(t)
  {
    if t == "" {
      assert s + t == s;
    } else {
      KeepAppend(s, t[..|t| - 1]);
      assert (s + t)[..|s + t| - 1] == s + t[..|t| - 1];
    }
  }

  lemma {:induction false} KeepOfLower(s: string)
    ensures Keep(Lower(s)) == Keep(s)
  {
    if s != [] {
      var init, last := s[..|s| - 1], s[|s| - 1];
      KeepOfLower(init);
      LowerAppend(init, [last]);
      assert s == init + [last];
      KeepAppend(Lower(init), Lower([last]));
      KeepAppend(init, [last]);
      assert Lower([last]) == [LowerChar(last)];
      KeepOne(last);
      KeepOne(LowerChar(last));
    }
  }

  lemma {:induction false} LowerAppend(s: string, t: string)
    ensures Lower(s + t) == Lower(s) + Lower(t)
  {
    if s == [] {
      assert s + t == t;
    } else {
      LowerAppend(s[1..], t);
      assert (s + t)[1..] == s[1..] + t;
    }
  }

  lemma {:induction false} SplitOfLower(s: string)
    ensures |Split(Lower(s))| == |Split(s)|
    ensures forall i | 0 <= i < |Split(s)| :: Split(Lower(s))[i] == Lower(Split(s)[i])
  {
    if s != [] {
      var low := Lower(s);
      SplitOfLower(s[1..]);
      assert low[1..] == Lower(s[1..]) && low[0] == LowerChar(s[0]);
      if s[0] != '.' {
        var head := Split(s[1..])[0];
        assert ([s[0]] + head)[1..] == head;
      }
    }
  }

  /** Capitals do not matter, and a string that is a valid name but for capitals becomes that name. */
  lemma CapitalsAreLowered(name: string)
    ensures Fits(name) <==> Fits(Lower(name))
    ensures Name(name) == Name(Lower(name))
    ensures ValidName(Lower(name)) ==> Fits(name) && Name(name) == Lower(name)
  {
    SplitOfLower(name);
    forall i | 0 <= i < |Split(name)| ensures Labels(Lower(name))[i] == Labels(name)[i] {
      KeepOfLower(Split(name)[i]);
    }
    assert Labels(Lower(name)) == Labels(name);
    if ValidName(Lower(name)) {
      ValidUnchanged(Lower(name));
    }
  }

  /** Hence a second call changes nothing. */
  lemma Idempotent(name: string)
    requires Fits(name)
    ensures Fits(Name(name)) && Name(Name(name)) == Name(name)
  {
    ResultIsValid(name);
    ValidUnchanged(Name(name));
  }
}
