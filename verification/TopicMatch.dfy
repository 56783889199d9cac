/** Which topics a filter selects: the broker's prefix comparison against the level-by-level rule of
    section 4.7 of MQTT 3.1.1. Texts are C strings. */
module TopicMatch {
  import opened Bytes

  const SLASH: byte := 0x2F
  const HASH: byte := 0x23
  const PLUS: byte := 0x2B
  const DOLLAR: byte := 0x24

  /** strncmp(a, b, n) == 0 for n no longer than the C string `a`. */
  predicate SamePrefix(a: seq<byte>, b: seq<byte>, n: nat)
    requires n <= |a|
  {
    a[..n] <= b
  }

  /** topic_matches. */
  predicate TopicMatches(filter: seq<byte>, topic: seq<byte>) {
    var flen := |filter|;
    || filter == topic
    || (flen >= 2 && filter[flen - 1] == HASH && filter[flen - 2] == SLASH && SamePrefix(filter, topic, flen - 1))
    || filter == [HASH]
  }

  // The standard's rule.

  /** The levels of a text: what '/' separates. */
  function Levels(s: seq<byte>): (ls: seq<seq<byte>>)
    ensures |ls| >= 1
  {
    if s == [] then [[]]
    else
      var ls := Levels(s[1..]);
      if s[0] == SLASH then [[]] + ls else [[s[0]] + ls[0]] + ls[1..]
  }

  /** '#' only alone in the last level; '+' only alone in its level (sections 4.7.1.2 and 4.7.1.3). */
  predicate ValidLevels(fs: seq<seq<byte>>) {
    && (forall i :: 0 <= i < |fs| && HASH in fs[i] ==> fs[i] == [HASH] && i == |fs| - 1)
    && (forall i :: 0 <= i < |fs| && PLUS in fs[i] ==> fs[i] == [PLUS])
  }

  predicate ValidFilter(f: seq<byte>) {
    f != [] && ValidLevels(Levels(f))
  }

  predicate ValidTopic(t: seq<byte>) {
    t != [] && HASH !in t && PLUS !in t
  }

  /** '+' stands for one level, '#' for any number of levels, none included. */
  predicate LevelsMatch(fs: seq<seq<byte>>, ts: seq<seq<byte>>) {
    if fs == [] then ts == []
    else if fs[0] == [HASH] then true
    else ts != [] && (fs[0] == [PLUS] || fs[0] == ts[0]) && LevelsMatch(fs[1..], ts[1..])
  }

  /** Section 4.7, with the rule of 4.7.2: no leading wildcard selects a topic that starts with '$'. */
  predicate Selects(filter: seq<byte>, topic: seq<byte>)
    requires filter != [] && topic != []
  {
    && LevelsMatch(Levels(filter), Levels(topic))
    && !(topic[0] == DOLLAR && (filter[0] == HASH || filter[0] == PLUS))
  }

  // Levels and text.

  lemma {:induction false} LevelsHold(s: seq<byte>, b: byte)
    requires b != SLASH
    ensures b in s <==> exists i :: 0 <= i < |Levels(s)| && b in Levels(s)[i]
  {
    if s != [] {
      var ls := Levels(s[1..]);
      LevelsHold(s[1..], b);
      var all := Levels(s);
      if s[0] == SLASH {
        assert forall i :: 0 <= i < |ls| ==> all[i + 1] == ls[i];
      } else {
        assert all[0] == [s[0]] + ls[0];
        assert forall i :: 1 <= i < |ls| ==> all[i] == ls[i];
        if b in s[1..] {
          var i :| 0 <= i < |ls| && b in ls[i];
          assert b in all[i];
        }
        if exists i :: 0 <= i < |all| && b in all[i] {
          var i :| 0 <= i < |all| && b in all[i];
          if i > 0 {
            assert b in ls[i];
          } else if b != s[0] {
            assert b in ls[0];
          }
        }
      }
    }
  }

  lemma EmptyLevels(s: seq<byte>)
    ensures Levels(s) == [[]] <==> s == []
  {
    if s != [] {
      assert |Levels(s)| > 1 || |Levels(s)[0]| > 0;
    }
  }

  /** Splitting is injective. */
  lemma {:induction false} LevelsInjective(s: seq<byte>, t: seq<byte>)
    requires Levels(s) == Levels(t)
    ensures s == t
  {
    EmptyLevels(s);
    EmptyLevels(t);
    if s != [] {
      var ls, lt := Levels(s[1..]), Levels(t[1..]);
      if s[0] == SLASH {
        assert Levels(s)[0] == [];
        assert t[0] == SLASH;
        assert ls == Levels(s)[1..] && lt == Levels(t)[1..];
      } else {
        assert Levels(s)[0][0] == s[0];
        assert t[0] == s[0];
        assert ls[0] == Levels(s)[0][1..] && lt[0] == Levels(t)[0][1..];
        assert ls[1..] == Levels(s)[1..] && lt[1..] == Levels(t)[1..];
        assert ls == [ls[0]] + ls[1..] && lt == [lt[0]] + lt[1..];
      }
      LevelsInjective(s[1..], t[1..]);
    }
  }

  lemma {:induction false} OneLevel(s: seq<byte>)
    requires SLASH !in s
    ensures Levels(s) == [s]
  {
    if s != [] {
      OneLevel(s[1..]);
      assert s == [s[0]] + s[1..];
    }
  }

  /** Appending a level. */
  lemma {:induction false} LevelsAppend(s: seq<byte>, last: seq<byte>)
    requires SLASH !in last
    ensures Levels(last) == [last]
    ensures Levels(s + [SLASH] + last) == Levels(s) + [last]
    decreases |s|
  {
    var u := s + [SLASH] + last;
    OneLevel(last);
    if s == [] {
      assert u[1..] == last;
    } else {
      LevelsAppend(s[1..], last);
      assert u[0] == s[0] && u[1..] == s[1..] + [SLASH] + last;
      var ls := Levels(s[1..]);
      assert (ls + [last])[0] == ls[0] && (ls + [last])[1..] == ls[1..] + [last];
      assert [[]] + (ls + [last]) == [[]] + ls + [last];
    }
  }

  /** The last of several levels follows the last '/'. */
  lemma {:induction false} LastLevel(s: seq<byte>) returns (g: seq<byte>, last: seq<byte>)
    requires |Levels(s)| > 1
    ensures s == g + [SLASH] + last && SLASH !in last
    ensures Levels(s) == Levels(g) + [last]
  {
    hide Levels;
    var k := |s| - 1;
    while k >= 0 && s[k] != SLASH
      invariant -1 <= k < |s| && SLASH !in s[k + 1..]
    {
      assert s[k..] == [s[k]] + s[k + 1..];
      k := k - 1;
    }
    if k < 0 {
      assert s[0..] == s;
      LevelsAppend([], s);
      assert false;
    }
    g, last := s[..k], s[k + 1..];
    assert s == g + [SLASH] + last;
    LevelsAppend(g, last);
  }

  lemma FirstLevel(s: seq<byte>)
    ensures Levels(s)[0] == [] <==> s == [] || s[0] == SLASH
    ensures s != [] && s[0] == SLASH ==> Levels(s) == [[]] + Levels(s[1..])
    ensures s != [] && s[0] != SLASH ==>
              var ls := Levels(s[1..]);
              Levels(s) == [[s[0]] + ls[0]] + ls[1..]
  {
  }

  lemma PrefixByHead<T>(a: seq<T>, b: seq<T>)
    requires a != [] && b != []
    ensures a <= b <==> a[0] == b[0] && a[1..] <= b[1..]
  {
    assert a == [a[0]] + a[1..] && b == [b[0]] + b[1..];
  }

  /** Whole levels as a prefix are the text as a prefix, up to a '/' or the end. */
  lemma {:induction false} LevelsPrefix(g: seq<byte>, t: seq<byte>)
    ensures Levels(g) <= Levels(t) <==> t == g || g + [SLASH] <= t
  {
    hide Levels;
    FirstLevel(g);
    FirstLevel(t);
    var lg, lt := Levels(g), Levels(t);
    PrefixByHead(lg, lt);
    if g == [] || t == [] {
      FirstLevel([]);
      LevelsAppend([], []);
    } else {
      var mg, mt := Levels(g[1..]), Levels(t[1..]);
      LevelsPrefix(g[1..], t[1..]);
      PrefixByHead(mg, mt);
      assert t == g || g + [SLASH] <= t <==> t[0] == g[0] && (t[1..] == g[1..] || g[1..] + [SLASH] <= t[1..]) by {
        assert g == [g[0]] + g[1..] && t == [t[0]] + t[1..];
        assert g + [SLASH] == [g[0]] + (g[1..] + [SLASH]);
      }
      if g[0] == SLASH {
        assert lg[1..] == mg;
        assert t[0] == SLASH ==> lt[1..] == mt;
      } else if t[0] == g[0] {
        assert lg[0][1..] == mg[0] && lt[0][1..] == mt[0];
        assert lg[1..] == mg[1..] && lt[1..] == mt[1..];
      } else {
        assert lg[0][0] == g[0];
        assert t[0] != SLASH ==> lt[0][0] == t[0];
      }
    }
  }

  // The rule on level lists.

  predicate Literal(fs: seq<seq<byte>>) {
    forall i :: 0 <= i < |fs| ==> fs[i] != [HASH] && fs[i] != [PLUS]
  }

  lemma {:induction false} LiteralMatch(fs: seq<seq<byte>>, ts: seq<seq<byte>>)
    requires Literal(fs)
    ensures LevelsMatch(fs, ts) <==> fs == ts
    ensures LevelsMatch(fs + [[HASH]], ts) <==> fs <= ts
  {
    if fs == [] {
      assert (fs + [[HASH]])[0] == [HASH];
    } else {
      assert (fs + [[HASH]])[0] == fs[0] && (fs + [[HASH]])[1..] == fs[1..] + [[HASH]];
      if ts != [] {
        LiteralMatch(fs[1..], ts[1..]);
        assert fs == [fs[0]] + fs[1..] && ts == [ts[0]] + ts[1..];
      }
    }
  }

  // The broker against the standard.

  /** A valid filter with a '#' is "#" itself, or literal levels, then "/#". */
  lemma HashFilter(f: seq<byte>) returns (g: seq<byte>)
    requires ValidFilter(f) && HASH in f && PLUS !in f && f != [HASH]
    ensures f == g + [SLASH, HASH] && Literal(Levels(g)) && Levels(f) == Levels(g) + [[HASH]]
  {
    var fs := Levels(f);
    LevelsHold(f, HASH);
    LevelsHold(f, PLUS);
    if |fs| == 1 {
      LevelsAppend([], [HASH]);
      LevelsInjective(f, [HASH]);
    }
    var last;
    g, last := LastLevel(f);
    assert fs[|fs| - 1] == [HASH];
    assert g + [SLASH, HASH] == g + [SLASH] + [HASH];
    forall i | 0 <= i < |Levels(g)| ensures Levels(g)[i] != [HASH] && Levels(g)[i] != [PLUS] {
      assert Levels(g)[i] == fs[i];
    }
  }

  lemma MatchesHashFilter(g: seq<byte>, t: seq<byte>)
    requires HASH !in t
    ensures TopicMatches(g + [SLASH, HASH], t) <==> g + [SLASH] <= t
  {
    var f := g + [SLASH, HASH];
    assert f[|f| - 1] == HASH && f[|f| - 2] == SLASH && f[..|f| - 1] == g + [SLASH];
  }

  /** A '#' in the first place is the only one of its filter. */
  lemma NoLeadingHash(f: seq<byte>)
    requires ValidFilter(f)
    ensures f[0] == HASH <==> f == [HASH]
  {
    if f[0] == HASH {
      assert Levels(f)[0] == [HASH] + Levels(f[1..])[0];
      assert HASH in Levels(f)[0];
      assert Levels(f[1..]) == [[]];
      EmptyLevels(f[1..]);
    }
  }

  /** For every valid filter and valid topic, topic_matches departs from section 4.7 in exactly three
      ways: a filter with '+' never matches, "t/#" does not match its parent level t, and "#" matches
      topics that start with '$'. */
  lemma MatchesAsStandard(f: seq<byte>, t: seq<byte>)
    requires ValidFilter(f) && ValidTopic(t)
    ensures TopicMatches(f, t) <==>
            || (Selects(f, t) && PLUS !in f && f != t + [SLASH, HASH])
            || (f == [HASH] && t[0] == DOLLAR)
  {
    LevelsHold(f, HASH);
    LevelsHold(f, PLUS);
    if PLUS in f {
      assert f[..|f| - 1] <= t ==> PLUS !in f[..|f| - 1];
      assert f == f[..|f| - 1] + [f[|f| - 1]];
    } else if f == [HASH] {
      LevelsAppend([], [HASH]);
    } else if HASH in f {
      var g := HashFilter(f);
      LiteralMatch(Levels(g), Levels(t));
      LevelsPrefix(g, t);
      MatchesHashFilter(g, t);
      NoLeadingHash(f);
      assert f == t + [SLASH, HASH] <==> g == t by {
        assert f[..|f| - 2] == g && (t + [SLASH, HASH])[..|t|] == t;
      }
      assert !(g + [SLASH] <= g);
    } else {
      LiteralMatch(Levels(f), Levels(t));
      if Levels(f) == Levels(t) {
        LevelsInjective(f, t);
      }
    }
  }

  lemma ParentLevel()
    ensures var parent: seq<byte> := [0x61, SLASH, HASH];
            ValidFilter(parent) && Selects(parent, [0x61]) && !TopicMatches(parent, [0x61])
  {
    LevelsAppend([0x61], [HASH]);
    LevelsAppend([], [0x61]);
    LevelsAppend([], [HASH]);
    var parent: seq<byte> := [0x61, SLASH, HASH];
    assert [0x61] + [SLASH] + [HASH] == parent;
    LiteralMatch([[0x61]], [[0x61]]);
  }

  lemma PlusLevel()
    ensures ValidFilter([PLUS]) && Selects([PLUS], [0x61]) && !TopicMatches([PLUS], [0x61])
  {
    LevelsAppend([], [0x61]);
    LevelsAppend([], [PLUS]);
  }

  lemma HashDollar()
    ensures ValidFilter([HASH]) && !Selects([HASH], [DOLLAR]) && TopicMatches([HASH], [DOLLAR])
  {
    LevelsAppend([], [HASH]);
  }

  /** The three departures do occur. */
  lemma DeparturesOccur()
    ensures var parent: seq<byte> := [0x61, SLASH, HASH];
            ValidFilter(parent) && Selects(parent, [0x61]) && !TopicMatches(parent, [0x61])
    ensures ValidFilter([PLUS]) && Selects([PLUS], [0x61]) && !TopicMatches([PLUS], [0x61])
    ensures ValidFilter([HASH]) && !Selects([HASH], [DOLLAR]) && TopicMatches([HASH], [DOLLAR])
  {
    hide ValidFilter, Selects, TopicMatches;
    ParentLevel();
    PlusLevel();
    HashDollar();
  }
}
