/**
 Shortening Kubernetes label keys: a key that is too long or not well formed keeps the front of its
 name and gets a hash. The hash is a parameter, fourteen hexadecimal digits of a digest of the key.
 Strings are ASCII.
 */
module LabelKey {
  import opened Wrappers

  const MAX_NAME := 45
  const MAX_BASE := 30

  predicate IsHex(c: char)
  {
    '0' <= c <= '9' || 'a' <= c <= 'f'
  }

  predicate AllHex(s: string)
  {
    forall i | 0 <= i < |s| :: IsHex(s[i])
  }

  type Digest = s: string | |s| == 14 && AllHex(s) witness "00000000000000"

  predicate IsAlnum(c: char)
  {
    'a' <= c <= 'z' || 'A' <= c <= 'Z' || '0' <= c <= '9'
  }

  predicate NameChar(c: char)
  {
    IsAlnum(c) || c == '-' || c == '_' || c == '.'
  }

  predicate NameChars(s: string)
  {
    forall i | 0 <= i < |s| :: NameChar(s[i])
  }

  predicate AlnumEnds(s: string)
  {
    s != [] && IsAlnum(s[0]) && IsAlnum(s[|s| - 1])
  }

  /** The pattern of a label name. */
  predicate Matches(s: string)
  {
    AlnumEnds(s) && NameChars(s)
  }

  // ----- Prefix and name -----

  function IndexOfSlash(s: string): (r: Option<nat>)
    ensures r.Some? ==> r.value < |s| && s[r.value] == '/' && '/' !in s[..r.value]
    ensures r.None? ==> '/' !in s
  {
    if s == [] then None
    else if s[0] == '/' then Some(0)
    else
      var r := IndexOfSlash(s[1..]);
      if r.Some? then
        assert s[..r.value + 1] == [s[0]] + s[1..][..r.value];
        Some(r.value + 1)
      else None
  }

  function Prefix(key: string): string
  {
    var at := IndexOfSlash(key);
    if at.Some? then key[..at.value] else ""
  }

  function NamePart(key: string): string
  {
    var at := IndexOfSlash(key);
    if at.Some? then key[at.value + 1..] else key
  }

  function Joined(prefix: string, name: string): string
  {
    if prefix == "" then name else prefix + "/" + name
  }

  lemma JoinedParts(prefix: string, name: string)
    requires '/' !in prefix && '/' !in name
    ensures Prefix(Joined(prefix, name)) == prefix && NamePart(Joined(prefix, name)) == name
  {
    if prefix != "" {
      SlashAt(prefix, name);
    }
  }

  lemma {:induction false} SlashAt(prefix: string, name: string)
    requires '/' !in prefix
    ensures IndexOfSlash(prefix + "/" + name) == Some(|prefix|)
    ensures (prefix + "/" + name)[..|prefix|] == prefix && (prefix + "/" + name)[|prefix| + 1..] == name
  {
    var s := prefix + "/" + name;
    if prefix != [] {
      SlashAt(prefix[1..], name);
      assert s[0] == prefix[0] && s[1..] == prefix[1..] + "/" + name;
    }
  }

  // ----- Shortening -----

  /** Without the trailing characters that are not letters or digits. */
  function Trim(s: string): (r: string)
    ensures |r| <= |s| && r == s[..|r|]
    ensures r != [] ==> IsAlnum(r[|r| - 1])
  {
    if s != [] && !IsAlnum(s[|s| - 1]) then Trim(s[..|s| - 1]) else s
  }

  function FirstAlnum(s: string): (r: string)
    ensures |r| == 1 && IsAlnum(r[0])
  {
    if s == [] then "a" else if IsAlnum(s[0]) then [s[0]] else FirstAlnum(s[1..])
  }

  function Base(name: string): (r: string)
    ensures 1 <= |r| <= MAX_BASE && IsAlnum(r[|r| - 1])
  {
    var base := Trim(if |name| > MAX_BASE then name[..MAX_BASE] else name);
    if base == "" then FirstAlnum(name) else base
  }

  function Hashed(name: string, hash: Digest): string
  {
    var tagged := Base(name) + "-" + hash;
    var led := if IsAlnum(tagged[0]) then tagged else "a" + tagged;
    if |led| > MAX_NAME then
      (var cut := Trim(led[..MAX_NAME]);
       if cut == "" then "a" else cut)
    else led
  }

  predicate StaysAsIs(name: string)
  {
    |name| <= MAX_NAME && Matches(name)
  }

  function ShortName(key: string, hash: string -> Digest): string
  {
    if StaysAsIs(NamePart(key)) then NamePart(key) else Hashed(NamePart(key), hash(key))
  }

  function Shorten(key: string, hash: string -> Digest): string
  {
    Joined(Prefix(key), ShortName(key, hash))
  }

  method ShortenLabelKey(key: string, hash: string -> Digest) returns (r: string)
    ensures r == Shorten(key, hash)
  {
    var prefix, name := Prefix(key), NamePart(key);
    if |name| <= MAX_NAME && Matches(name) {
      return Joined(prefix, name);
    }
    var base := name;
    if |base| > MAX_BASE {
      base := base[..MAX_BASE];
    }
    ghost var front := base;
    while |base| > 0 && !IsAlnum(base[|base| - 1])
      invariant Trim(base) == Trim(front)
      decreases |base|
    {
      base := base[..|base| - 1];
    }
    if |base| == 0 {
      base := PickAlnum(name);
    }
    var result := base + "-" + hash(key);
    if !IsAlnum(result[0]) {
      result := "a" + result;
    }
    if |result| > MAX_NAME {
      ghost var cut := result[..MAX_NAME];
      result := result[..MAX_NAME];
      while |result| > 0 && !IsAlnum(result[|result| - 1])
        invariant Trim(result) == Trim(cut)
        decreases |result|
      {
        result := result[..|result| - 1];
      }
      if result == "" {
        result := "a";
      }
    }
    return Joined(prefix, result);
  }

  method PickAlnum(name: string) returns (found: string)
    ensures found == FirstAlnum(name)
  {
    found := "a";
    for i := 0 to |name|
      invariant FirstAlnum(name) == FirstAlnum(name[i..]) && found == "a"
    {
      if IsAlnum(name[i]) {
        return [name[i]];
      }
    }
  }

  // ----- What a shortened key looks like -----

  /** Whether an "a" had to be put in front and pushed out the last digit of the hash. */
  predicate Pushed(name: string)
  {
    !IsAlnum(Base(name)[0]) && |Base(name)| == MAX_BASE
  }

  /** The front of a hashed name and the digits of the hash that stay. */
  function Front(name: string): (r: string)
    ensures 2 <= |r| <= MAX_BASE + 2 && IsAlnum(r[0])
  {
    (if IsAlnum(Base(name)[0]) then "" else "a") + Base(name) + "-"
  }

  function Kept(name: string, hash: Digest): (r: string)
    ensures 13 <= |r| <= 14 && r == hash[..|r|]
  {
    if Pushed(name) then hash[..13] else hash
  }

  lemma TrimNothing(s: string)
    requires s != [] && IsAlnum(s[|s| - 1])
    ensures Trim(s) == s
  {
  }

  lemma CutOf(front: string, hash: Digest)
    requires |front| == MAX_BASE + 2
    ensures Trim((front + hash)[..MAX_NAME]) == front + hash[..13]
  {
    var cut := (front + hash)[..MAX_NAME];
    assert cut == front + hash[..13];
    assert cut[MAX_NAME - 1] == hash[12] && IsHex(hash[12]);
    TrimNothing(cut);
  }

  /** The hashed form spelled out: its end is the hash, or, when pushed, the hash without its last digit. */
  lemma HashedShape(name: string, hash: Digest)
    ensures Hashed(name, hash) == Front(name) + Kept(name, hash)
    ensures 1 <= |Hashed(name, hash)| <= MAX_NAME
  {
    var base := Base(name);
    var tagged := base + "-" + hash;
    assert tagged[0] == base[0];
    var led := if IsAlnum(tagged[0]) then tagged else "a" + tagged;
    assert led == Front(name) + hash;
    if Pushed(name) {
      CutOf(Front(name), hash);
    }
  }

  lemma HashedEnds(name: string, hash: Digest)
    ensures AlnumEnds(Hashed(name, hash))
  {
    HashedShape(name, hash);
    var r, tail := Hashed(name, hash), Kept(name, hash);
    assert r[|r| - 1] == tail[|tail| - 1] == hash[|tail| - 1];
    assert IsHex(hash[|tail| - 1]);
  }

  /** The name is 1 to 45 bytes long, starts and ends with a letter or digit, and leaves room for "-backup". */
  lemma ShortNameIsShort(key: string, hash: string -> Digest)
    ensures AlnumEnds(ShortName(key, hash)) && 1 <= |ShortName(key, hash)| <= MAX_NAME
    ensures |ShortName(key, hash) + "-backup"| <= 63
  {
    HashedShape(NamePart(key), hash(key));
    HashedEnds(NamePart(key), hash(key));
  }

  lemma {:induction false} FirstAlnumIsName(s: string)
    ensures NameChars(FirstAlnum(s))
  {
  }

  lemma BaseIsName(name: string)
    requires NameChars(name)
    ensures NameChars(Base(name))
  {
    FirstAlnumIsName(name);
    var front := if |name| > MAX_BASE then name[..MAX_BASE] else name;
    assert forall i | 0 <= i < |Trim(front)| :: Trim(front)[i] == name[i];
  }

  lemma HashedMatches(name: string, hash: Digest)
    requires NameChars(name)
    ensures NameChars(Hashed(name, hash))
  {
    HashedShape(name, hash);
    BaseIsName(name);
    assert forall i | 0 <= i < 14 :: IsHex(hash[i]);
    assert NameChars(Front(name)) && NameChars(Kept(name, hash));
  }

  /** Names of letters, digits, '-', '_' and '.' become well-formed names of the same characters. */
  lemma ShortNameMatches(key: string, hash: string -> Digest)
    requires NameChars(NamePart(key))
    ensures Matches(ShortName(key, hash)) && StaysAsIs(ShortName(key, hash))
  {
    ShortNameIsShort(key, hash);
    HashedMatches(NamePart(key), hash(key));
  }

  lemma NoSlash(s: string)
    requires NameChars(s)
    ensures '/' !in s
  {
  }

  /** Shortening a shortened key changes nothing. */
  lemma Idempotent(key: string, hash: string -> Digest)
    requires NameChars(NamePart(key))
    ensures Shorten(Shorten(key, hash), hash) == Shorten(key, hash)
  {
    ShortNameMatches(key, hash);
    NoSlash(ShortName(key, hash));
    assert '/' !in Prefix(key);
    JoinedParts(Prefix(key), ShortName(key, hash));
  }

  /**
   The forms written out: a well-formed name of at most 45 bytes stays; a longer one of letters and digits
   keeps its first thirty and gets a dash and the hash of the whole key; a short one that begins with a dash
   gets the letter "a" in front as well; and one without letters and digits is an "a" and the hash.
   */
  lemma FormsExact(prefix: string, name: string, hash: string -> Digest)
    requires prefix != "" && '/' !in prefix
    ensures |name| <= 45 && AlnumEnds(name) && NameChars(name) ==>
              Shorten(prefix + "/" + name, hash) == prefix + "/" + name
    ensures |name| > 45 && (forall i | 0 <= i < |name| :: IsAlnum(name[i])) ==>
              Shorten(prefix + "/" + name, hash) == prefix + "/" + (name[..30] + "-" + hash(prefix + "/" + name))
    ensures 1 < |name| < 30 && name[0] == '-' && IsAlnum(name[|name| - 1]) ==>
              Shorten(prefix + "/" + name, hash) == prefix + "/" + ("a" + name + "-" + hash(prefix + "/" + name))
    ensures (forall i | 0 <= i < |name| :: !IsAlnum(name[i])) ==>
              Shorten(prefix + "/" + name, hash) == prefix + "/" + ("a-" + hash(prefix + "/" + name))
  {
    var key := prefix + "/" + name;
    SlashAt(prefix, name);
    assert Prefix(key) == prefix && NamePart(key) == name;
    if |name| > 45 && forall i | 0 <= i < |name| :: IsAlnum(name[i]) {
      LongForm(name, hash(key));
    }
    if 1 < |name| < 30 && name[0] == '-' && IsAlnum(name[|name| - 1]) {
      DashForm(name, hash(key));
    }
    if forall i | 0 <= i < |name| :: !IsAlnum(name[i]) {
      EmptyForm(name, hash(key));
    }
  }

  lemma LongForm(name: string, hash: Digest)
    requires |name| > 45 && forall i | 0 <= i < |name| :: IsAlnum(name[i])
    ensures !StaysAsIs(name) && Hashed(name, hash) == name[..30] + "-" + hash
  {
    TrimNothing(name[..30]);
    HashedShape(name, hash);
    assert Front(name) == "" + name[..30] + "-";
  }

  lemma DashForm(name: string, hash: Digest)
    requires 1 < |name| < 30 && name[0] == '-' && IsAlnum(name[|name| - 1])
    ensures !StaysAsIs(name) && Hashed(name, hash) == "a" + name + "-" + hash
  {
    TrimNothing(name);
    HashedShape(name, hash);
  }

  lemma EmptyForm(name: string, hash: Digest)
    requires forall i | 0 <= i < |name| :: !IsAlnum(name[i])
    ensures !StaysAsIs(name) && Hashed(name, hash) == "a-" + hash
  {
    NothingToKeep(name);
    NothingToKeep(if |name| > MAX_BASE then name[..MAX_BASE] else name);
    HashedShape(name, hash);
    assert Front(name) == "" + "a" + "-";
  }

  lemma {:induction false} NothingToKeep(s: string)
    requires forall i | 0 <= i < |s| :: !IsAlnum(s[i])
    ensures Trim(s) == "" && FirstAlnum(s) == "a"
  {
    if s != [] {
      NothingToKeep(s[1..]);
      NothingTrimmed(s);
    }
  }

  lemma {:induction false} NothingTrimmed(s: string)
    requires forall i | 0 <= i < |s| :: !IsAlnum(s[i])
    ensures Trim(s) == ""
  {
    if s != [] {
      NothingTrimmed(s[..|s| - 1]);
    }
  }

  // ----- Collisions -----

  /** The fourteenth character from the end tells the two forms apart. */
  lemma TailOfHashed(name: string, hash: Digest)
    ensures var r := Hashed(name, hash);
      && |r| >= 14
      && r[|r| - |Kept(name, hash)|..] == Kept(name, hash)
      && (IsHex(r[|r| - 14]) <==> !Pushed(name))
  {
    HashedShape(name, hash);
    var r, front, tail := Hashed(name, hash), Front(name), Kept(name, hash);
    assert front[|front| - 1] == '-';
    if Pushed(name) {
      assert r[|r| - 14] == front[|front| - 1];
    } else {
      assert r[|r| - 14] == hash[0] && IsHex(hash[0]);
    }
  }

  lemma SameHashedName(n: string, h: Digest, m: string, g: Digest)
    requires Hashed(n, h) == Hashed(m, g)
    ensures h[..13] == g[..13]
    ensures !Pushed(n) ==> h == g
  {
    TailOfHashed(n, h);
    TailOfHashed(m, g);
    SameTail(Hashed(n, h), Kept(n, h), Kept(m, g));
    assert h[..13] == Kept(n, h)[..13] && g[..13] == Kept(m, g)[..13];
  }

  lemma SameTail(r: string, a: string, b: string)
    requires 13 <= |a| <= |r| && 13 <= |b| <= |r| && r[|r| - |a|..] == a && r[|r| - |b|..] == b
    requires |a| == |b|
    ensures a == b
  {
  }

  /**
   Two keys that both had to be hashed only become the same key if the first thirteen digits of their
   hashes are the same; all fourteen, unless the last was pushed out.
   */
  lemma CollisionsNeedEqualHashes(a: string, b: string, hash: string -> Digest)
    requires NameChars(NamePart(a)) && NameChars(NamePart(b))
    requires !StaysAsIs(NamePart(a)) && !StaysAsIs(NamePart(b))
    requires Shorten(a, hash) == Shorten(b, hash)
    ensures Prefix(a) == Prefix(b)
    ensures hash(a)[..13] == hash(b)[..13]
    ensures !Pushed(NamePart(a)) ==> hash(a) == hash(b)
  {
    ShortNameMatches(a, hash);
    ShortNameMatches(b, hash);
    NoSlash(ShortName(a, hash));
    NoSlash(ShortName(b, hash));
    JoinedParts(Prefix(a), ShortName(a, hash));
    JoinedParts(Prefix(b), ShortName(b, hash));
    SameHashedName(NamePart(a), hash(a), NamePart(b), hash(b));
  }

  /** A pushed key has lost a digit: two hashes that differ only there are not told apart. */
  lemma PushedDigitIsLost(name: string, h: Digest, g: Digest)
    requires Pushed(name)
    ensures Hashed(name, h) == Hashed(name, g) <==> h[..13] == g[..13]
  {
    HashedShape(name, h);
    HashedShape(name, g);
    if Hashed(name, h) == Hashed(name, g) {
      SameHashedName(name, h, name, g);
    }
  }

  /** Keys that stay as they are never collide with each other. */
  lemma UnchangedAreDistinct(a: string, b: string, hash: string -> Digest)
    requires StaysAsIs(NamePart(a)) && StaysAsIs(NamePart(b)) && Shorten(a, hash) == Shorten(b, hash)
    ensures Prefix(a) == Prefix(b) && NamePart(a) == NamePart(b)
  {
    NoSlash(NamePart(a));
    NoSlash(NamePart(b));
    JoinedParts(Prefix(a), NamePart(a));
    JoinedParts(Prefix(b), NamePart(b));
  }
}
