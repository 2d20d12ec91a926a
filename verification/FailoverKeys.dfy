/**
 The failover ranking with the keys the operator really uses: joined names, shortened with a hash.
 */
module FailoverKeys {
  import opened Failover
  import opened Ranking
  import Shortening = LabelKey

  function Short(hash: string -> Shortening.Digest): string -> string
  {
    (key: string) => Shortening.Shorten(key, hash)
  }

  /** The name part of the label key from one endpoint to another. */
  function Joined(from: string, to: string): string
  {
    from + "-" + to
  }

  lemma KeyParts(from: string, to: string)
    requires Shortening.NameChars(Joined(from, to))
    ensures Shortening.Prefix("failover/" + from + "-" + to) == "failover"
    ensures Shortening.NamePart("failover/" + from + "-" + to) == Joined(from, to)
  {
    Shortening.NoSlash(Joined(from, to));
    Shortening.JoinedParts("failover", Joined(from, to));
    assert "failover/" + from + "-" + to == "failover" + "/" + Joined(from, to);
  }

  /** Joining loses nothing on the endpoints of these edges, and joined names are label names but for their length. */
  ghost predicate NamesJoin(ns: seq<Names>)
  {
    && (forall m, x | m in ns && Labelled(m, x) :: Shortening.NameChars(Joined(m.from, x)))
    && (forall m, n, x, y | m in ns && n in ns && Labelled(m, x) && Labelled(n, y) ::
          Joined(m.from, x) == Joined(n.from, y) ==> m.from == n.from && x == y)
  }

  /** The names `a` and `b`, if different, are still told apart after shortening. */
  ghost predicate ToldApart(hash: string -> Shortening.Digest, a: string, b: string)
  {
    var h, g := hash("failover/" + a), hash("failover/" + b);
    a == b ||
    (match (Shortening.StaysAsIs(a), Shortening.StaysAsIs(b))
     case (true, true) => true
     case (true, false) => a != Shortening.Hashed(b, g)
     case (false, true) => b != Shortening.Hashed(a, h)
     case (false, false) => h[..13] != g[..13])
  }

  lemma ShortNameOf(hash: string -> Shortening.Digest, from: string, to: string)
    requires Shortening.NameChars(Joined(from, to))
    ensures var a := Joined(from, to);
      Short(hash)("failover/" + from + "-" + to)
      == "failover/" + (if Shortening.StaysAsIs(a) then a else Shortening.Hashed(a, hash("failover/" + a)))
  {
    var a := Joined(from, to);
    KeyParts(from, to);
    SameKey(from, to);
    JoinFailover(if Shortening.StaysAsIs(a) then a else Shortening.Hashed(a, hash("failover/" + a)));
  }

  lemma SameKey(from: string, to: string)
    ensures "failover/" + from + "-" + to == "failover/" + Joined(from, to)
  {
  }

  lemma JoinFailover(name: string)
    ensures Shortening.Joined("failover", name) == "failover/" + name
  {
    assert "failover" + "/" == "failover/";
  }

  lemma TwoKeys(hash: string -> Shortening.Digest, f: string, x: string, g: string, y: string)
    requires Shortening.NameChars(Joined(f, x)) && Shortening.NameChars(Joined(g, y))
    requires ToldApart(hash, Joined(f, x), Joined(g, y))
    requires LabelKey(Short(hash), f, x) == LabelKey(Short(hash), g, y)
    ensures Joined(f, x) == Joined(g, y)
  {
    var a, b := Joined(f, x), Joined(g, y);
    ShortNameOf(hash, f, x);
    ShortNameOf(hash, g, y);
    PrefixCancels("failover/",
      if Shortening.StaysAsIs(a) then a else Shortening.Hashed(a, hash("failover/" + a)),
      if Shortening.StaysAsIs(b) then b else Shortening.Hashed(b, hash("failover/" + b)));
    if !Shortening.StaysAsIs(a) && !Shortening.StaysAsIs(b) {
      Shortening.SameHashedName(a, hash("failover/" + a), b, hash("failover/" + b));
    }
  }

  /**
   With the operator's own shortening, the failover ranking of all edges holds exactly under the two
   conditions of `RankingExact`, unless joined names coincide or shortened ones cannot be told apart.
   */
  lemma ShortenedRankingExact(ns: seq<Names>, hash: string -> Shortening.Digest)
    requires WellFormed(ns) && NamesJoin(ns)
    requires forall m, n, x, y | m in ns && n in ns && Labelled(m, x) && Labelled(n, y) ::
      ToldApart(hash, Joined(m.from, x), Joined(n.from, y))
    ensures (forall n | n in ns :: Ranked(Derive(Short(hash), ns), n)) <==> SameBackup(ns) && NoMutualBackups(ns)
  {
    forall m, n, x, y | m in ns && n in ns && Labelled(m, x) && Labelled(n, y)
        && LabelKey(Short(hash), m.from, x) == LabelKey(Short(hash), n.from, y)
      ensures m.from == n.from && x == y
    {
      TwoKeys(hash, m.from, x, n.from, y);
    }
    RankingExact(Short(hash), ns);
  }
}
