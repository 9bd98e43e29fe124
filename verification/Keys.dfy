/** Strings built by joining parts with colons: the text hashed into a bucket, and the
    keys under which the cache and the rate limiter share one Redis database. */
module Keys {
  import opened Base

  predicate KeyChar(c: char) {
    'a' <= c <= 'z' || 'A' <= c <= 'Z' || '0' <= c <= '9' || c == '.' || c == '_' || c == '-'
  }

  /** What `FlagCreate.key` accepts. */
  predicate ValidFlagKey(k: string) {
    1 <= |k| <= 255 && forall i :: 0 <= i < |k| ==> KeyChar(k[i])
  }

  function EnvName(e: Env): string {
    match e
    case Development => "development"
    case Staging => "staging"
    case Production => "production"
  }

  function Decimal(n: nat): (s: string)
    ensures |s| > 0
  {
    if n < 10 then [('0' as int + n) as char]
    else Decimal(n / 10) + [('0' as int + n % 10) as char]
  }

  function HashInput(flagKey: string, userId: string): string {
    flagKey + ":" + userId
  }

  function CacheKeyText(tenant: Uuid, e: Env): string {
    "flags:" + tenant + ":" + EnvName(e)
  }

  function RateKeyText(identity: string, window: nat): string {
    "ratelimit:" + identity + ":" + Decimal(window)
  }

  /** The keys as another client of the same Redis would spell them. */
  lemma KeyLayout(t: Uuid, i: string, w: nat)
    ensures CacheKeyText(t, Development) == "flags:" + t + ":development"
    ensures CacheKeyText(t, Staging) == "flags:" + t + ":staging"
    ensures CacheKeyText(t, Production) == "flags:" + t + ":production"
    ensures RateKeyText(i, w) == "ratelimit:" + i + ":" + Decimal(w)
  {
    hide Decimal;
    assert EnvName(Development) == "development" && EnvName(Staging) == "staging";
    assert EnvName(Production) == "production";
    assert "flags:" + t + ":development" == ("flags:" + t) + ":" + "development";
    assert "flags:" + t + ":staging" == ("flags:" + t) + ":" + "staging";
    assert "flags:" + t + ":production" == ("flags:" + t) + ":" + "production";
  }

  lemma {:induction false} DecimalInjective(m: nat, n: nat)
    requires Decimal(m) == Decimal(n)
    ensures m == n
  {
    var dm, dn := Decimal(m), Decimal(n);
    assert dm[|dm| - 1] == ('0' as int + m % 10) as char;
    assert dn[|dn| - 1] == ('0' as int + n % 10) as char;
    assert m % 10 == n % 10;
    if m >= 10 && n >= 10 {
      assert Decimal(m / 10) == dm[..|dm| - 1] == dn[..|dn| - 1] == Decimal(n / 10);
      DecimalInjective(m / 10, n / 10);
    }
  }

  /** The separator keeps the two halves apart whenever the first half has no colon. */
  lemma SplitAtFirstColon(a: string, b: string, c: string, d: string)
    requires ':' !in a && ':' !in c
    requires a + ":" + b == c + ":" + d
    ensures a == c && b == d
  {
    var s, t := a + ":" + b, c + ":" + d;
    assert s[|a|] == ':' && t[|c|] == ':';
    assert forall i :: 0 <= i < |a| ==> s[i] == a[i] && s[i] != ':';
    assert forall i :: 0 <= i < |c| ==> t[i] == c[i] && t[i] != ':';
    assert a == s[..|a|] && c == t[..|c|];
    assert b == s[|a| + 1..] && d == t[|c| + 1..];
  }

  /** Two (flag, user) pairs share a hash input only when they are the same pair, whatever
      characters the user ids hold. */
  lemma HashInputUnambiguous(k1: string, u1: string, k2: string, u2: string)
    requires ValidFlagKey(k1) && ValidFlagKey(k2)
    ensures HashInput(k1, u1) == HashInput(k2, u2) <==> k1 == k2 && u1 == u2
  {
    if HashInput(k1, u1) == HashInput(k2, u2) {
      SplitAtFirstColon(k1, u1, k2, u2);
    }
  }

  /** Without the separator, or with a colon admitted in flag keys, the claim would fail. */
  lemma HashInputNeedsTheAlphabet()
    ensures HashInput("a:b", "c") == HashInput("a", "b:c")
    ensures "ab" + "c" == "a" + "bc"
  {
  }

  lemma LastColon(a: string, b: string, s: string)
    requires ':' !in b && s == a + ":" + b
    ensures s[|a|] == ':' && forall i :: |a| < i < |s| ==> s[i] != ':'
  {
    forall i | |a| < i < |s| ensures s[i] != ':' {
      assert s[i] == b[i - |a| - 1];
    }
  }

  lemma SplitAtLastColon(a: string, b: string, c: string, d: string)
    requires ':' !in b && ':' !in d
    requires a + ":" + b == c + ":" + d
    ensures a == c && b == d
  {
    var s := a + ":" + b;
    LastColon(a, b, s);
    LastColon(c, d, s);
    assert a == s[..|a|] && c == s[..|c|];
    assert b == s[|a| + 1..] && d == s[|c| + 1..];
  }

  lemma EnvNamesDistinct(e: Env, f: Env)
    ensures ':' !in EnvName(e)
    ensures EnvName(e) == EnvName(f) ==> e == f
  {
    assert EnvName(Development)[0] == 'd' && EnvName(Staging)[0] == 's' && EnvName(Production)[0] == 'p';
  }

  lemma CacheKeysUnambiguous(t1: Uuid, e1: Env, t2: Uuid, e2: Env)
    ensures CacheKeyText(t1, e1) == CacheKeyText(t2, e2) <==> t1 == t2 && e1 == e2
  {
    hide EnvName;
    EnvNamesDistinct(e1, e2);
    EnvNamesDistinct(e2, e1);
    if CacheKeyText(t1, e1) == CacheKeyText(t2, e2) {
      SplitAtLastColon("flags:" + t1, EnvName(e1), "flags:" + t2, EnvName(e2));
      assert t1 == ("flags:" + t1)[6..] && t2 == ("flags:" + t2)[6..];
    }
  }

  lemma RateKeysUnambiguous(i1: string, w1: nat, i2: string, w2: nat)
    requires |i1| == |i2|
    ensures RateKeyText(i1, w1) == RateKeyText(i2, w2) <==> i1 == i2 && w1 == w2
  {
    var s, t := RateKeyText(i1, w1), RateKeyText(i2, w2);
    if s == t {
      assert i1 == s[10..10 + |i1|] && i2 == t[10..10 + |i2|];
      assert Decimal(w1) == s[11 + |i1|..] && Decimal(w2) == t[11 + |i2|..];
      DecimalInjective(w1, w2);
    }
  }

  /** The two features never touch each other's keys in the Redis they share. */
  lemma CacheAndRateKeysDisjoint(t: Uuid, e: Env, i: string, w: nat)
    ensures CacheKeyText(t, e) != RateKeyText(i, w)
  {
    assert CacheKeyText(t, e)[0] == 'f' && RateKeyText(i, w)[0] == 'r';
  }
}
