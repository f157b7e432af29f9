/**
 * The key patterns of Redis `KEYS`: `*` matches any run of characters (possibly
 * empty), `?` matches one character, every other character matches itself.
 */
module Glob {

  function Matches(p: string, s: string): (r: bool)
    ensures Literal(p) ==> (r <==> p == s)
    decreases |p| + |s|
  {
    if |p| == 0 then |s| == 0
    else if p[0] == '*' then Matches(p[1..], s) || (|s| > 0 && Matches(p, s[1..]))
    else |s| > 0 && (p[0] == '?' || p[0] == s[0]) && Matches(p[1..], s[1..])
  }

  /** A pattern fragment with no wildcard, which only matches itself. */
  predicate Literal(lit: string) {
    '*' !in lit && '?' !in lit
  }

  /** A pattern that starts with a literal matches exactly the keys that start with it. */
  lemma {:induction false} LiteralPrefix(lit: string, q: string, s: string)
    requires Literal(lit)
    ensures Matches(lit + q, s) <==> lit <= s && Matches(q, s[|lit|..])
    decreases |lit|
  {
    if |lit| > 0 {
      var p := lit + q;
      assert p[0] == lit[0] && p[1..] == lit[1..] + q;
      if |s| > 0 {
        LiteralPrefix(lit[1..], q, s[1..]);
        if |lit| <= |s| {
          assert s[1..][|lit| - 1..] == s[|lit|..];
        }
        assert lit <= s <==> lit[0] == s[0] && lit[1..] <= s[1..];
      }
    } else {
      assert lit + q == q && s[0..] == s;
    }
  }

  /** `*` followed by `q` matches `t` exactly when `q` matches some suffix of `t`. */
  lemma {:induction false} StarThen(q: string, t: string)
    ensures Matches("*" + q, t) <==> exists i :: 0 <= i <= |t| && Matches(q, t[i..])
    decreases |t|
  {
    var p := "*" + q;
    assert p[0] == '*' && p[1..] == q;
    assert t[0..] == t;
    if |t| > 0 {
      StarThen(q, t[1..]);
      forall i | 1 <= i <= |t| ensures t[1..][i - 1..] == t[i..] { }
      if Matches(p, t[1..]) {
        var i :| 0 <= i <= |t[1..]| && Matches(q, t[1..][i..]);
        assert Matches(q, t[i + 1..]);
      }
      if exists i :: 0 <= i <= |t| && Matches(q, t[i..]) {
        var i :| 0 <= i <= |t| && Matches(q, t[i..]);
        if i > 0 {
          assert Matches(q, t[1..][i - 1..]);
        }
      }
    }
  }

  lemma {:induction false} StarMatchesAll(t: string)
    ensures Matches("*", t)
    decreases |t|
  {
    var p := "*";
    assert p[1..] == "";
    if |t| > 0 {
      StarMatchesAll(t[1..]);
    }
  }

  /** `lit*` matches exactly the keys that start with `lit`. */
  lemma PrefixPattern(lit: string, s: string)
    requires Literal(lit)
    ensures Matches(lit + "*", s) <==> lit <= s
  {
    LiteralPrefix(lit, "*", s);
    if lit <= s {
      StarMatchesAll(s[|lit|..]);
    }
  }

  /** `lit*:*` matches exactly the keys that start with `lit` and have a `:` after it. */
  lemma PrefixColonPattern(lit: string, s: string)
    requires Literal(lit)
    ensures Matches(lit + "*:*", s) <==> lit <= s && ':' in s[|lit|..]
  {
    LiteralPrefix(lit, "*:*", s);
    assert "*" + ":*" == "*:*" && ":" + "*" == ":*";
    if lit <= s {
      var t := s[|lit|..];
      StarThen(":*", t);
      if Matches("*:*", t) {
        var i :| 0 <= i <= |t| && Matches(":*", t[i..]);
        LiteralPrefix(":", "*", t[i..]);
        assert t[i] == ':';
      }
      if ':' in t {
        var i :| 0 <= i < |t| && t[i] == ':';
        LiteralPrefix(":", "*", t[i..]);
        StarMatchesAll(t[i..][1..]);
        assert Matches(":*", t[i..]);
      }
    }
  }
}
