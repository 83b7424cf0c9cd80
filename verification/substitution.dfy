/** Replacing node names by addresses inside the quoted values of an inventory line: one name
    per value and pass, again and again until nothing changes. */
module Substitution {
  import opened Text

  // ---- one quoted value ----

  predicate Opens(s: string) {
    |s| >= 4 && s[0] == 'n' && s[1] == 'o' && s[2] == 'd' && s[3] == 'e'
  }

  /** s starts with node[0-9]+. */
  predicate TokenAt(s: string) {
    Opens(s) && |s| > 4 && IsDigit(s[4])
  }

  function Digits(s: string): (n: nat)
    ensures n <= |s| && (n < |s| ==> !IsDigit(s[n])) && (s != "" && IsDigit(s[0]) ==> n > 0)
  {
    if s == "" || !IsDigit(s[0]) then 0 else 1 + Digits(s[1..])
  }

  function TokenLength(s: string): (n: nat)
    requires Opens(s)
    ensures 4 <= n <= |s| && (TokenAt(s) ==> n > 4)
  {
    4 + Digits(s[4..])
  }

  predicate HasToken(s: string) {
    s != "" && (TokenAt(s) || HasToken(s[1..]))
  }

  function Last(s: string): (i: nat)
    requires HasToken(s)
    ensures i < |s| && TokenAt(s[i..])
  {
    if HasToken(s[1..]) then 1 + Last(s[1..]) else 0
  }

  type Resolver = string -> string

  /** Every name resolves to a text of digits and dots; a node without an address, to nothing. */
  ghost predicate Dotted(addr: Resolver) {
    forall name :: IsDotted(addr(name))
  }

  predicate IsName(t: string) {
    TokenAt(t) && TokenLength(t) == |t|
  }

  /** Every node has an address. */
  ghost predicate Addressed(addr: Resolver) {
    forall t | IsName(t) :: addr(t) != ""
  }

  ghost predicate Resolves(addr: Resolver) {
    Dotted(addr) && Addressed(addr)
  }

  predicate IsDotted(a: string) {
    forall c | c in a :: IsDigit(c) || c == '.'
  }

  /** What one pass does to a value: the text before a token is matched greedily, so the last
      token is the one replaced. */
  function ReplaceLast(addr: Resolver, s: string): string
    requires HasToken(s)
  {
    var i := Last(s);
    var n := TokenLength(s[i..]);
    s[..i] + (addr(s[i..][..n]) + s[i..][n..])
  }

  /** Every token replaced at once, from the left. */
  function ReplaceAll(addr: Resolver, s: string): string
    decreases |s|
  {
    if s == "" then ""
    else if TokenAt(s) then addr(s[..TokenLength(s)]) + ReplaceAll(addr, s[TokenLength(s)..])
    else [s[0]] + ReplaceAll(addr, s[1..])
  }

  /** How often the letter n occurs. */
  function Letters(s: string): nat {
    if s == "" then 0 else (if s[0] == 'n' then 1 else 0) + Letters(s[1..])
  }

  /** Passes over one value until it has no token left. */
  function Settle(addr: Resolver, s: string): (r: string)
    requires Dotted(addr)
    ensures !HasToken(r)
    decreases Letters(s)
  {
    if !HasToken(s) then s else
      FewerLetters(addr, s);
      Settle(addr, ReplaceLast(addr, s))
  }

  /** No token directly follows a token or the letters "node". */
  predicate Separated(s: string)
    decreases |s|
  {
    s == ""
    || (if TokenAt(s) then !TokenAt(s[TokenLength(s)..]) && Separated(s[TokenLength(s)..])
        else !(Opens(s) && TokenAt(s[4..])) && Separated(s[1..]))
  }

  // ---- cutting a value at its last token ----

  lemma {:induction false} SuffixHasNone(s: string, k: nat)
    requires !HasToken(s) && k <= |s|
    ensures !HasToken(s[k..])
  {
    if k == 0 {
      assert s[0..] == s;
    } else {
      SuffixHasNone(s[1..], k - 1);
      assert s[1..][k - 1..] == s[k..];
    }
  }

  lemma {:induction false} NoneAfterLast(s: string)
    requires HasToken(s)
    ensures !HasToken(s[Last(s) + 1..])
  {
    if HasToken(s[1..]) {
      NoneAfterLast(s[1..]);
      assert s[1..][Last(s[1..]) + 1..] == s[Last(s) + 1..];
    }
  }

  lemma NoneAfterLastToken(s: string)
    requires HasToken(s)
    ensures var tail := s[Last(s)..]; !HasToken(tail[TokenLength(tail)..])
  {
    var i, tail := Last(s), s[Last(s)..];
    var n := TokenLength(tail);
    NoneAfterLast(s);
    SuffixHasNone(s[i + 1..], n - 1);
    assert s[i + 1..][n - 1..] == tail[n..];
  }

  lemma CutTwice(s: string, i: nat, n: nat)
    requires i + n <= |s|
    ensures s[i..][..n] + s[i..][n..] == s[i..] && s == s[..i] + (s[i..][..n] + s[i..][n..])
  {
  }

  lemma CutAtLast(addr: Resolver, s: string) returns (pre: string, token: string, post: string)
    requires HasToken(s)
    ensures s == pre + (token + post) && TokenAt(token + post) && TokenLength(token + post) == |token| && IsName(token)
    ensures !HasToken(post) && ReplaceLast(addr, s) == pre + (addr(token) + post)
  {
    var i, tail := Last(s), s[Last(s)..];
    var n := TokenLength(tail);
    pre, token, post := s[..i], tail[..n], tail[n..];
    NoneAfterLastToken(s);
    CutTwice(s, i, n);
    TokenAlone(tail);
  }

  lemma TokenAlone(s: string)
    requires TokenAt(s)
    ensures IsName(s[..TokenLength(s)])
  {
    var t := s[..TokenLength(s)];
    DigitsAlone(s[4..], Digits(s[4..]));
    assert t[4..] == s[4..][..Digits(s[4..])];
  }

  lemma {:induction false} DigitsAlone(s: string, n: nat)
    requires n <= Digits(s)
    ensures Digits(s[..n]) == n
  {
    if n > 0 {
      DigitsAlone(s[1..], n - 1);
      assert s[..n][1..] == s[1..][..n - 1];
    }
  }

  // ---- the passes end ----

  lemma {:induction false} LettersConcat(x: string, y: string)
    ensures Letters(x + y) == Letters(x) + Letters(y)
  {
    if x == "" {
      assert x + y == y;
    } else {
      assert (x + y)[1..] == x[1..] + y;
      LettersConcat(x[1..], y);
    }
  }

  lemma {:induction false} LettersOfAddress(a: string)
    requires IsDotted(a)
    ensures Letters(a) == 0
  {
    if a != "" {
      assert a[0] in a;
      LettersOfAddress(a[1..]);
    }
  }

  /** Each replacement leaves fewer letters n, so the passes end, even where taking a name away joins
      what stood around it to a new one. */
  lemma FewerLetters(addr: Resolver, s: string)
    requires Dotted(addr) && HasToken(s)
    ensures Letters(ReplaceLast(addr, s)) < Letters(s)
  {
    var pre, token, post := CutAtLast(addr, s);
    LettersConcat(pre, token + post);
    LettersConcat(token, post);
    LettersConcat(pre, addr(token) + post);
    LettersConcat(addr(token), post);
    LettersOfAddress(addr(token));
    assert token == (token + post)[..|token|] && token[0] == 'n';
  }

  // ---- the passes agree with replacing everything at once ----

  /** pre does not end in "node" or in a token. */
  predicate Closed(pre: string)
    decreases |pre|
  {
    pre == ""
    || (if TokenAt(pre) then TokenLength(pre) < |pre| && Closed(pre[TokenLength(pre)..])
        else !(Opens(pre) && |pre| == 4) && Closed(pre[1..]))
  }

  /** A text that starts neither like the middle of "node" nor, after an open end, with a digit. */
  predicate Fits(pre: string, y: string) {
    y != "" && y[0] !in {'o', 'd', 'e'} && (IsDigit(y[0]) ==> Closed(pre))
  }

  lemma {:induction false} DigitsConcat(s: string, y: string)
    requires Digits(s) < |s| || y == "" || !IsDigit(y[0])
    ensures Digits(s + y) == Digits(s)
  {
    if s == "" {
      assert s + y == y;
    } else if IsDigit(s[0]) {
      assert (s + y)[1..] == s[1..] + y;
      DigitsConcat(s[1..], y);
    }
  }

  lemma TokenLengthConcat(pre: string, y: string)
    requires Opens(pre) && (TokenLength(pre) < |pre| || y == "" || !IsDigit(y[0]))
    ensures TokenLength(pre + y) == TokenLength(pre) && (pre + y)[TokenLength(pre)..] == pre[TokenLength(pre)..] + y
    ensures TokenAt(pre + y) <==> TokenAt(pre)
  {
    assert (pre + y)[4..] == pre[4..] + y;
    DigitsConcat(pre[4..], y);
  }

  lemma TokenAtConcat(pre: string, y: string)
    requires pre != "" && !TokenAt(pre) && Fits(pre, y)
    ensures !TokenAt(pre + y) && (pre + y)[1..] == pre[1..] + y && Fits(pre[1..], y)
  {
    assert (pre + y)[|pre|] == y[0];
  }

  lemma TokenThen(pre: string, y: string)
    requires TokenAt(pre) && Fits(pre, y)
    ensures TokenAt(pre + y) && TokenLength(pre + y) == TokenLength(pre)
    ensures (pre + y)[..TokenLength(pre)] == pre[..TokenLength(pre)]
    ensures (pre + y)[TokenLength(pre)..] == pre[TokenLength(pre)..] + y && Fits(pre[TokenLength(pre)..], y)
  {
    TokenLengthConcat(pre, y);
  }

  lemma {:induction false} ReplaceAllConcat(addr: Resolver, pre: string, y: string)
    requires Fits(pre, y)
    ensures ReplaceAll(addr, pre + y) == ReplaceAll(addr, pre) + ReplaceAll(addr, y)
    decreases |pre|
  {
    if pre == "" {
      assert pre + y == y;
    } else if TokenAt(pre) {
      var n := TokenLength(pre);
      TokenThen(pre, y);
      ReplaceAllConcat(addr, pre[n..], y);
      ReplaceAllToken(addr, pre);
      ReplaceAllToken(addr, pre + y);
      Associate(addr(pre[..n]), ReplaceAll(addr, pre[n..]), ReplaceAll(addr, y));
    } else {
      TokenAtConcat(pre, y);
      ReplaceAllConcat(addr, pre[1..], y);
      ReplaceAllOther(addr, pre);
      ReplaceAllOther(addr, pre + y);
      Associate([pre[0]], ReplaceAll(addr, pre[1..]), ReplaceAll(addr, y));
    }
  }

  lemma {:induction false} ReplaceAllNone(addr: Resolver, s: string)
    requires !HasToken(s)
    ensures ReplaceAll(addr, s) == s
  {
    if s != "" {
      ReplaceAllNone(addr, s[1..]);
    }
  }

  lemma {:induction false} AddressHasNone(a: string, post: string)
    requires IsDotted(a) && !HasToken(post)
    ensures !HasToken(a + post)
  {
    if a == "" {
      assert a + post == post;
    } else {
      assert a[0] in a && (a + post)[1..] == a[1..] + post;
      AddressHasNone(a[1..], post);
    }
  }

  lemma {:induction false} NoneIsSeparated(s: string)
    requires !HasToken(s)
    ensures Separated(s)
  {
    if s != "" {
      NoneIsSeparated(s[1..]);
      if Opens(s) {
        SuffixHasNone(s, 4);
      }
    }
  }

  /** Before a token, and before an address where the end is closed, separation is decided by
      what stands in front. */
  lemma {:induction false} SeparatedConcat(pre: string, y: string)
    requires Fits(pre, y) && Separated(y)
    ensures Separated(pre + y) <==> Separated(pre) && (TokenAt(y) ==> Closed(pre))
    decreases |pre|
  {
    if pre == "" {
      assert pre + y == y;
    } else if TokenAt(pre) {
      var n := TokenLength(pre);
      TokenThen(pre, y);
      SeparatedConcat(pre[n..], y);
      if n == |pre| {
        assert pre[n..] + y == y;
      } else {
        TokenAtPrefix(pre[n..], y);
      }
    } else {
      TokenAtConcat(pre, y);
      SeparatedConcat(pre[1..], y);
      if Opens(pre) {
        assert (pre + y)[4..] == pre[4..] + y;
        if |pre| == 4 {
          assert pre[4..] + y == y;
        } else {
          ClosedAfterStem(pre);
          TokenAtPrefix(pre[4..], y);
        }
      }
    }
  }

  lemma ClosedAfterStem(pre: string)
    requires Opens(pre) && !TokenAt(pre) && |pre| > 4
    ensures Closed(pre) ==> Closed(pre[4..])
  {
    var p1, p2, p3 := pre[1..], pre[2..], pre[3..];
    assert p1[1..] == p2 && p2[1..] == p3 && p3[1..] == pre[4..];
    assert Closed(pre) ==> Closed(p1);
    assert Closed(p1) ==> Closed(p2);
    assert Closed(p2) ==> Closed(p3);
  }

  lemma TokenAtPrefix(pre: string, y: string)
    requires pre != "" && Fits(pre, y)
    ensures TokenAt(pre + y) <==> TokenAt(pre)
  {
    if TokenAt(pre) {
      TokenThen(pre, y);
    } else {
      TokenAtConcat(pre, y);
    }
  }

  lemma PassKeepsMeaning(addr: Resolver, s: string)
    requires Resolves(addr) && HasToken(s) && Separated(s)
    ensures Separated(ReplaceLast(addr, s)) && ReplaceAll(addr, ReplaceLast(addr, s)) == ReplaceAll(addr, s)
  {
    var pre, token, post := CutAtLast(addr, s);
    var a := addr(token);
    assert a != "" && IsDotted(a) && a[0] in a;
    AddressHasNone(a, post);
    NoneIsSeparated(post);
    NoneIsSeparated(a + post);
    assert (token + post)[|token|..] == post && (token + post)[..|token|] == token;
    SeparatedConcat(pre, token + post);
    SeparatedConcat(pre, a + post);
    ReplaceAllConcat(addr, pre, token + post);
    ReplaceAllConcat(addr, pre, a + post);
    ReplaceAllNone(addr, a + post);
    ReplaceAllNone(addr, post);
  }

  lemma {:induction false} SettleIsReplaceAll(addr: Resolver, s: string)
    requires Resolves(addr) && Separated(s)
    ensures Settle(addr, s) == ReplaceAll(addr, s)
    decreases Letters(s)
  {
    if HasToken(s) {
      PassKeepsMeaning(addr, s);
      FewerLetters(addr, s);
      SettleIsReplaceAll(addr, ReplaceLast(addr, s));
    } else {
      ReplaceAllNone(addr, s);
    }
  }

  // ---- and only then ----

  function Zero(): Resolver {
    name => "0"
  }

  /** A digit put behind an open end is swallowed by the next pass's token. */
  lemma {:induction false} DigitSwallowed(pre: string, y: string)
    requires !Closed(pre) && y != "" && IsDigit(y[0]) && !HasToken(y)
    ensures |ReplaceAll(Zero(), pre + y)| < |ReplaceAll(Zero(), pre)| + |y|
    decreases |pre|
  {
    if TokenAt(pre) && TokenLength(pre) == |pre| {
      StemSwallows(pre, y);
      assert pre[|pre|..] == "";
    } else if TokenAt(pre) {
      TokenLengthConcat(pre, y);
      DigitSwallowed(pre[TokenLength(pre)..], y);
    } else if Opens(pre) && |pre| == 4 {
      StemSwallows(pre, y);
    } else {
      assert (pre + y)[|pre|] == y[0] && (pre + y)[1..] == pre[1..] + y;
      assert !TokenAt(pre + y);
      DigitSwallowed(pre[1..], y);
    }
  }

  lemma StemSwallows(pre: string, y: string)
    requires Opens(pre) && TokenLength(pre) == |pre| && y != "" && IsDigit(y[0]) && !HasToken(y)
    ensures |ReplaceAll(Zero(), pre + y)| <= |y|
  {
    LongerToken(pre, y);
    var rest := y[TokenLength(pre + y) - |pre|..];
    SuffixHasNone(y, TokenLength(pre + y) - |pre|);
    ReplaceAllNone(Zero(), rest);
    ReplaceAllToken(Zero(), pre + y);
  }

  lemma LongerToken(pre: string, y: string)
    requires Opens(pre) && TokenLength(pre) == |pre| && y != "" && IsDigit(y[0])
    ensures var n := TokenLength(pre + y);
            TokenAt(pre + y) && |pre| < n && (pre + y)[n..] == y[n - |pre|..]
  {
    assert (pre + y)[4..] == pre[4..] + y;
    MoreDigits(pre[4..], y);
    assert (pre + y)[4] == if |pre| > 4 then pre[4] else y[0];
  }

  lemma Associate(a: string, b: string, c: string)
    ensures a + b + c == a + (b + c)
  {
  }

  lemma ReplaceAllOther(addr: Resolver, s: string)
    requires s != "" && !TokenAt(s)
    ensures ReplaceAll(addr, s) == [s[0]] + ReplaceAll(addr, s[1..])
  {
  }

  lemma ReplaceAllToken(addr: Resolver, s: string)
    requires TokenAt(s)
    ensures ReplaceAll(addr, s) == addr(s[..TokenLength(s)]) + ReplaceAll(addr, s[TokenLength(s)..])
  {
  }

  lemma {:induction false} MoreDigits(ds: string, y: string)
    requires Digits(ds) == |ds| && y != "" && IsDigit(y[0])
    ensures |ds| < Digits(ds + y)
  {
    if ds == "" {
      assert ds + y == y;
    } else {
      assert (ds + y)[1..] == ds[1..] + y;
      MoreDigits(ds[1..], y);
    }
  }

  lemma PassShortens(s: string)
    requires HasToken(s)
    ensures var next := ReplaceLast(Zero(), s);
            var was, now := |ReplaceAll(Zero(), s)|, |ReplaceAll(Zero(), next)|;
            now <= was && (!Separated(s) ==> now < was || !Separated(next))
  {
    var pre, token, post := CutAtLast(Zero(), s);
    AddressHasNone("0", post);
    NoneIsSeparated(post);
    NoneIsSeparated("0" + post);
    assert (token + post)[|token|..] == post && (token + post)[..|token|] == token;
    SeparatedConcat(pre, token + post);
    ReplaceAllConcat(Zero(), pre, token + post);
    ReplaceAllNone(Zero(), post);
    if Closed(pre) {
      SeparatedConcat(pre, "0" + post);
      ReplaceAllConcat(Zero(), pre, "0" + post);
      ReplaceAllNone(Zero(), "0" + post);
    } else {
      DigitSwallowed(pre, "0" + post);
    }
  }

  lemma {:induction false} SettleShortens(s: string)
    requires Dotted(Zero())
    ensures |Settle(Zero(), s)| <= |ReplaceAll(Zero(), s)|
    ensures !Separated(s) ==> |Settle(Zero(), s)| < |ReplaceAll(Zero(), s)|
    decreases Letters(s)
  {
    if HasToken(s) {
      PassShortens(s);
      FewerLetters(Zero(), s);
      SettleShortens(ReplaceLast(Zero(), s));
    } else {
      ReplaceAllNone(Zero(), s);
      NoneIsSeparated(s);
    }
  }

  /** The passes give what replacing every token at once gives, whatever the addresses are,
      exactly when the tokens of the value are separated. */
  lemma SettleIsReplaceAllIff(s: string)
    ensures Separated(s) <==> forall addr: Resolver | Resolves(addr) :: Settle(addr, s) == ReplaceAll(addr, s)
  {
    if Separated(s) {
      forall addr: Resolver | Resolves(addr) ensures Settle(addr, s) == ReplaceAll(addr, s) {
        SettleIsReplaceAll(addr, s);
      }
    } else {
      SettleShortens(s);
    }
  }

  lemma VanishedTail(addr: Resolver, t: string)
    requires IsName(t) && addr(t) == ""
    ensures TokenAt(t + "de1") && Separated(t + "de1") && ReplaceAll(addr, t + "de1") == "de1"
  {
    var s := t + "de1";
    TokenLengthConcat(t, "de1");
    assert s[..|t|] == t && s[|t|..] == "de1";
    NoTokenInStems();
    ReplaceAllNone(addr, "de1");
    NoneIsSeparated("de1");
    ReplaceAllToken(addr, s);
  }

  lemma NoTokenInStems()
    ensures !HasToken("no") && Closed("no") && !HasToken("de1")
  {
    assert "no"[1..] == "o" && "o"[1..] == "";
    assert "de1"[1..] == "e1" && "e1"[1..] == "1" && "1"[1..] == "";
  }

  /** With a node that has no address this fails even for separated names: taking its name t out of
      no...de1 leaves a new name. */
  lemma VanishedNameJoins(addr: Resolver, t: string)
    requires Dotted(addr) && IsName(t) && addr(t) == ""
    ensures var s := "no" + (t + "de1");
            Separated(s) && ReplaceAll(addr, s) == "no" + "de1" && HasToken(ReplaceAll(addr, s))
  {
    VanishedTail(addr, t);
    NoTokenInStems();
    NoneIsSeparated("no");
    SeparatedConcat("no", t + "de1");
    ReplaceAllConcat(addr, "no", t + "de1");
    ReplaceAllNone(addr, "no");
    assert TokenAt("no" + "de1");
  }

  /** Separated names are replaced as if all at once in every value, for addresses that may be
      missing, if and only if none is missing. */
  lemma SeparatedSufficesIff(addr: Resolver)
    requires Dotted(addr)
    ensures (forall s | Separated(s) :: Settle(addr, s) == ReplaceAll(addr, s)) <==> Addressed(addr)
  {
    if Addressed(addr) {
      forall s | Separated(s) ensures Settle(addr, s) == ReplaceAll(addr, s) {
        SettleIsReplaceAll(addr, s);
      }
    } else {
      var t :| IsName(t) && addr(t) == "";
      var s := VanishedValue(addr, t);
      assert Separated(s) && Settle(addr, s) != ReplaceAll(addr, s);
    }
  }

  lemma VanishedValue(addr: Resolver, t: string) returns (s: string)
    requires Dotted(addr) && IsName(t) && addr(t) == ""
    ensures Separated(s) && Settle(addr, s) != ReplaceAll(addr, s)
  {
    s := "no" + (t + "de1");
    VanishedNameJoins(addr, t);
  }

  // ---- the whole line ----

  /** A piece between quotes that ends in one of the listed keys and an equals sign. */
  predicate EndsKey(p: string) {
    || HasSuffix(p, "extra_mongos_shard=") || HasSuffix(p, "extra_mongos_cfg=") || HasSuffix(p, "extra_haproxy_pg=")
    || HasSuffix(p, "extra_haproxy_patroni=") || HasSuffix(p, "extra_pgbouncer=") || HasSuffix(p, "extra_patroni_standby=")
  }

  /** Piece i stands between two quotes, behind a listed key. */
  predicate Listed(ps: seq<string>, i: int) {
    1 <= i < |ps| - 1 && EndsKey(ps[i - 1])
  }

  /** One ReplaceAllStringFunc over the pieces of a line split at its quotes: a match takes a
      key, its value and the closing quote, and the search goes on behind it. */
  function Pass(addr: Resolver, ps: seq<string>): (qs: seq<string>)
    ensures |qs| == |ps| && (ps != [] ==> qs[0] == ps[0])
    decreases |ps|
  {
    if |ps| < 3 then ps
    else if EndsKey(ps[0]) && HasToken(ps[1]) then [ps[0], ReplaceLast(addr, ps[1])] + Pass(addr, ps[2..])
    else [ps[0]] + Pass(addr, ps[1..])
  }

  predicate Moved(addr: Resolver, ps: seq<string>, qs: seq<string>, i: int)
    requires |ps| == |qs| && 0 <= i < |ps|
  {
    qs[i] == ps[i] || (Listed(ps, i) && HasToken(ps[i]) && qs[i] == ReplaceLast(addr, ps[i]))
  }

  lemma MovedBehind(addr: Resolver, ps: seq<string>, qs: seq<string>, k: nat, rest: seq<string>, i: nat)
    requires |ps| == |qs| && k <= i < |ps| && qs[k..] == rest && Moved(addr, ps[k..], rest, i - k)
    ensures Moved(addr, ps, qs, i)
  {
    assert ps[k..][i - k] == ps[i] && rest[i - k] == qs[i];
  }

  lemma PassStep(addr: Resolver, ps: seq<string>)
    requires |ps| >= 3
    ensures EndsKey(ps[0]) && HasToken(ps[1]) ==>
              Pass(addr, ps)[1] == ReplaceLast(addr, ps[1]) && Pass(addr, ps)[2..] == Pass(addr, ps[2..])
    ensures !(EndsKey(ps[0]) && HasToken(ps[1])) ==> Pass(addr, ps)[1..] == Pass(addr, ps[1..])
  {
  }

  lemma {:induction false} PassMoves(addr: Resolver, ps: seq<string>, i: nat)
    requires i < |ps|
    ensures Moved(addr, ps, Pass(addr, ps), i)
    decreases |ps|
  {
    if |ps| >= 3 && i > 0 {
      if EndsKey(ps[0]) && HasToken(ps[1]) {
        if i > 1 {
          PassMoves(addr, ps[2..], i - 2);
        }
        MovesTaken(addr, ps, i);
      } else {
        PassMoves(addr, ps[1..], i - 1);
        MovesSkipped(addr, ps, i);
      }
    }
  }

  lemma MovesTaken(addr: Resolver, ps: seq<string>, i: nat)
    requires 0 < i < |ps| && |ps| >= 3 && EndsKey(ps[0]) && HasToken(ps[1])
    requires i > 1 ==> Moved(addr, ps[2..], Pass(addr, ps[2..]), i - 2)
    ensures Moved(addr, ps, Pass(addr, ps), i)
  {
    PassStep(addr, ps);
    if i > 1 {
      MovedBehind(addr, ps, Pass(addr, ps), 2, Pass(addr, ps[2..]), i);
    }
  }

  lemma MovesSkipped(addr: Resolver, ps: seq<string>, i: nat)
    requires 0 < i < |ps| && |ps| >= 3 && !(EndsKey(ps[0]) && HasToken(ps[1]))
    requires Moved(addr, ps[1..], Pass(addr, ps[1..]), i - 1)
    ensures Moved(addr, ps, Pass(addr, ps), i)
  {
    PassStep(addr, ps);
    MovedBehind(addr, ps, Pass(addr, ps), 1, Pass(addr, ps[1..]), i);
  }

  /** When a pass changes nothing, no listed value has a token left. */
  lemma {:induction false} PassRests(addr: Resolver, ps: seq<string>, i: nat)
    requires Dotted(addr) && Pass(addr, ps) == ps && Listed(ps, i)
    ensures !HasToken(ps[i])
    decreases |ps|
  {
    if EndsKey(ps[0]) && HasToken(ps[1]) {
      FewerLetters(addr, ps[1]);
    } else {
      assert ps[1..] == Pass(addr, ps)[1..] == Pass(addr, ps[1..]);
      if i > 1 {
        PassRests(addr, ps[1..], i - 1);
      }
    }
  }

  lemma SuffixBehind(a: string, post: string, key: string)
    requires a != "" && a[|a| - 1] !in key
    ensures HasSuffix(a + post, key) <==> HasSuffix(post, key)
  {
    var s := a + post;
    if |key| <= |post| {
      assert s[|s| - |key|..] == post[|post| - |key|..];
    } else if |key| <= |s| {
      assert s[|s| - |key|..][|key| - |post| - 1] == a[|a| - 1];
    }
  }

  lemma EndsKeyBehind(a: string, post: string)
    requires a != "" && (IsDigit(a[|a| - 1]) || a[|a| - 1] == '.')
    ensures EndsKey(a + post) <==> EndsKey(post)
  {
    SuffixBehind(a, post, "extra_mongos_shard=");
    SuffixBehind(a, post, "extra_mongos_cfg=");
    SuffixBehind(a, post, "extra_haproxy_pg=");
    SuffixBehind(a, post, "extra_haproxy_patroni=");
    SuffixBehind(a, post, "extra_pgbouncer=");
    SuffixBehind(a, post, "extra_patroni_standby=");
  }

  /** A replacement does not change whether a value ends in a listed key. */
  lemma EndsKeyKept(addr: Resolver, s: string)
    requires Resolves(addr) && HasToken(s)
    ensures EndsKey(ReplaceLast(addr, s)) <==> EndsKey(s)
  {
    var pre, token, post := CutAtLast(addr, s);
    var a := addr(token);
    assert a != "" && IsDotted(a) && a[|a| - 1] in a;
    LastOfToken(token, post);
    EndsKeyBehindBoth(pre, token, post);
    EndsKeyBehindBoth(pre, a, post);
  }

  lemma EndsKeyBehindBoth(pre: string, a: string, post: string)
    requires a != "" && (IsDigit(a[|a| - 1]) || a[|a| - 1] == '.')
    ensures EndsKey(pre + (a + post)) <==> EndsKey(post)
  {
    assert pre + (a + post) == (pre + a) + post;
    EndsKeyBehind(pre + a, post);
  }

  lemma LastOfToken(token: string, post: string)
    requires TokenAt(token + post) && TokenLength(token + post) == |token|
    ensures |token| > 4 && IsDigit(token[|token| - 1])
  {
    var tail := token + post;
    DigitsAre(tail[4..], |token| - 5);
    assert tail[4..][|token| - 5] == token[|token| - 1];
  }

  lemma {:induction false} DigitsAre(s: string, i: nat)
    requires i < Digits(s)
    ensures IsDigit(s[i])
  {
    if i > 0 {
      DigitsAre(s[1..], i - 1);
    }
  }

  /** Every listed value settled, the rest of the line as it was. */
  function Settled(addr: Resolver, ps: seq<string>): (qs: seq<string>)
    requires Dotted(addr)
    ensures |qs| == |ps|
  {
    seq(|ps|, i requires 0 <= i < |ps| => if Listed(ps, i) then Settle(addr, ps[i]) else ps[i])
  }

  function AllAtOnce(addr: Resolver, ps: seq<string>): (qs: seq<string>)
    ensures |qs| == |ps|
  {
    seq(|ps|, i requires 0 <= i < |ps| => if Listed(ps, i) then ReplaceAll(addr, ps[i]) else ps[i])
  }

  lemma PassKeepsListed(addr: Resolver, ps: seq<string>, i: nat)
    requires Resolves(addr) && i < |ps|
    ensures Listed(Pass(addr, ps), i) <==> Listed(ps, i)
  {
    if i > 0 {
      PassMoves(addr, ps, i - 1);
      MovedKeepsKey(addr, ps, Pass(addr, ps), i - 1);
      ListedAlike(ps, Pass(addr, ps), i);
    }
  }

  lemma ListedAlike(ps: seq<string>, qs: seq<string>, i: nat)
    requires |ps| == |qs| && 0 < i < |ps| && (EndsKey(qs[i - 1]) <==> EndsKey(ps[i - 1]))
    ensures Listed(qs, i) <==> Listed(ps, i)
  {
  }

  lemma MovedKeepsKey(addr: Resolver, ps: seq<string>, qs: seq<string>, i: nat)
    requires Resolves(addr) && |ps| == |qs| && i < |ps| && Moved(addr, ps, qs, i)
    ensures EndsKey(qs[i]) <==> EndsKey(ps[i])
  {
    if qs[i] != ps[i] {
      EndsKeyKept(addr, ps[i]);
    }
  }

  lemma PassKeepsSettled(addr: Resolver, ps: seq<string>)
    requires Resolves(addr)
    ensures Settled(addr, Pass(addr, ps)) == Settled(addr, ps)
  {
    var qs := Pass(addr, ps);
    forall i | 0 <= i < |ps| ensures Settled(addr, qs)[i] == Settled(addr, ps)[i] {
      PassKeepsListed(addr, ps, i);
      PassMoves(addr, ps, i);
    }
  }

  lemma PassEndsSettled(addr: Resolver, ps: seq<string>)
    requires Dotted(addr) && Pass(addr, ps) == ps
    ensures Settled(addr, ps) == ps
  {
    forall i | 0 <= i < |ps| ensures Settled(addr, ps)[i] == ps[i] {
      if Listed(ps, i) {
        PassRests(addr, ps, i);
      }
    }
  }

  lemma NoneLeft(addr: Resolver, ps: seq<string>)
    requires Dotted(addr) && Pass(addr, ps) == ps
    ensures forall i | Listed(ps, i) :: !HasToken(ps[i])
  {
    forall i | Listed(ps, i) ensures !HasToken(ps[i]) {
      PassRests(addr, ps, i);
    }
  }

  function Total(ps: seq<string>): nat {
    if ps == [] then 0 else Letters(ps[0]) + Total(ps[1..])
  }

  lemma TotalOfTwo(a: string, b: string, ps: seq<string>)
    ensures Total([a, b] + ps) == Letters(a) + Letters(b) + Total(ps)
  {
    assert ([a, b] + ps)[1..] == [b] + ps && ([b] + ps)[1..] == ps;
  }

  lemma {:induction false} PassDescends(addr: Resolver, ps: seq<string>)
    requires Dotted(addr)
    ensures Total(Pass(addr, ps)) <= Total(ps) && (Pass(addr, ps) != ps ==> Total(Pass(addr, ps)) < Total(ps))
    decreases |ps|
  {
    if |ps| < 3 {
    } else if EndsKey(ps[0]) && HasToken(ps[1]) {
      FewerLetters(addr, ps[1]);
      PassDescends(addr, ps[2..]);
      TotalOfTwo(ps[0], ps[1], ps[2..]);
      TotalOfTwo(ps[0], ReplaceLast(addr, ps[1]), Pass(addr, ps[2..]));
      assert ps == [ps[0], ps[1]] + ps[2..];
    } else {
      PassDescends(addr, ps[1..]);
      assert Pass(addr, ps)[1..] == Pass(addr, ps[1..]) && ps == [ps[0]] + ps[1..];
    }
  }

  lemma PassHasNoQuote(addr: Resolver, ps: seq<string>)
    requires Dotted(addr) && forall p | p in ps :: '\'' !in p
    ensures forall p | p in Pass(addr, ps) :: '\'' !in p
  {
    var qs := Pass(addr, ps);
    forall i | 0 <= i < |qs| ensures '\'' !in qs[i] {
      PassMoves(addr, ps, i);
      assert ps[i] in ps;
      if HasToken(ps[i]) {
        var pre, token, post := CutAtLast(addr, ps[i]);
        assert IsDotted(addr(token));
      }
    }
  }

  /** Passes over the pieces until one changes nothing. */
  function Rest(addr: Resolver, ps: seq<string>): (qs: seq<string>)
    requires Dotted(addr)
    ensures Pass(addr, qs) == qs && |qs| == |ps| && (ps != [] ==> qs[0] == ps[0])
    decreases Total(ps)
  {
    PassDescends(addr, ps);
    if Pass(addr, ps) == ps then ps else Rest(addr, Pass(addr, ps))
  }

  /** When every node has an address, that settles the values listed at the start. */
  lemma {:induction false} RestIsSettled(addr: Resolver, ps: seq<string>)
    requires Resolves(addr)
    ensures Rest(addr, ps) == Settled(addr, ps)
    decreases Total(ps)
  {
    if Pass(addr, ps) == ps {
      PassEndsSettled(addr, ps);
    } else {
      PassDescends(addr, ps);
      PassKeepsSettled(addr, ps);
      RestIsSettled(addr, Pass(addr, ps));
    }
  }

  /** The loop over the line: it ends, no listed value then has a name left, and when every node has
      an address the values listed at the start are the ones settled. */
  method Substitute(addr: Resolver, line: string) returns (content: string)
    requires Dotted(addr)
    ensures content == Join(Rest(addr, Split(line, '\'')), '\'')
    ensures var ps := Split(content, '\''); |ps| == |Split(line, '\'')| && forall i | Listed(ps, i) :: !HasToken(ps[i])
    ensures Resolves(addr) ==> content == Join(Settled(addr, Split(line, '\'')), '\'')
  {
    content := line;
    while true
      invariant Rest(addr, Split(content, '\'')) == Rest(addr, Split(line, '\''))
      decreases Total(Split(content, '\''))
    {
      var pieces := Split(content, '\'');
      var replaced := Pass(addr, pieces);
      JoinSplit(content, '\'');
      var next := Join(replaced, '\'');
      PassHasNoQuote(addr, pieces);
      SplitJoin(replaced, '\'');
      PassDescends(addr, pieces);
      if next == content {
        NoneLeft(addr, pieces);
        break;
      }
      content := next;
    }
    if Resolves(addr) {
      RestIsSettled(addr, Split(line, '\''));
    }
  }

  ghost predicate AllSeparated(ps: seq<string>) {
    forall i | Listed(ps, i) :: Separated(ps[i])
  }

  lemma SettledIsAllAtOnce(addr: Resolver, ps: seq<string>)
    requires Resolves(addr) && AllSeparated(ps)
    ensures Settled(addr, ps) == AllAtOnce(addr, ps)
  {
    forall i | Listed(ps, i) ensures Settle(addr, ps[i]) == ReplaceAll(addr, ps[i]) {
      SettleIsReplaceAll(addr, ps[i]);
    }
  }

  /** The loop replaces every node name of the listed values at once, whatever the addresses,
      exactly when the names are separated in each of those values. */
  lemma SettledIsAllAtOnceIff(ps: seq<string>)
    ensures AllSeparated(ps) <==> forall addr: Resolver | Resolves(addr) :: Settled(addr, ps) == AllAtOnce(addr, ps)
  {
    if AllSeparated(ps) {
      forall addr: Resolver | Resolves(addr) ensures Settled(addr, ps) == AllAtOnce(addr, ps) {
        SettledIsAllAtOnce(addr, ps);
      }
    } else {
      var i :| Listed(ps, i) && !Separated(ps[i]);
      SettleShortens(ps[i]);
      assert Settled(Zero(), ps)[i] != AllAtOnce(Zero(), ps)[i];
    }
  }

  /** A line with one quoted value behind a name. */
  function LineWith(pre: string, key: string, value: string, post: string): string {
    Join([pre + key + "=", value, post], '\'')
  }

  lemma LinePieces(pre: string, key: string, value: string, post: string)
    requires '\'' !in pre && '\'' !in key && '\'' !in value && '\'' !in post
    ensures Split(LineWith(pre, key, value, post), '\'') == [pre + key + "=", value, post]
  {
    SplitJoin([pre + key + "=", value, post], '\'');
  }

  lemma SettledThree(addr: Resolver, a: string, b: string, c: string)
    requires Dotted(addr)
    ensures Settled(addr, [a, b, c]) == [a, if EndsKey(a) then Settle(addr, b) else b, c]
  {
  }

  lemma KeyedValue(addr: Resolver, front: string, value: string, post: string)
    requires Resolves(addr) && Separated(value) && EndsKey(front)
    ensures Settled(addr, [front, value, post]) == [front, ReplaceAll(addr, value), post]
  {
    SettleIsReplaceAll(addr, value);
    SettledThree(addr, front, value, post);
  }

  /** The six settings whose value is substituted, by name: in each of them, whatever stands before
      and behind it on the line, the separated names are replaced and nothing else changes. */
  lemma NamedSettings(addr: Resolver, pre: string, key: string, value: string, post: string)
    requires Resolves(addr) && Separated(value)
    requires '\'' !in pre && '\'' !in value && '\'' !in post
    requires key in {"extra_mongos_shard", "extra_mongos_cfg", "extra_haproxy_pg",
                     "extra_haproxy_patroni", "extra_pgbouncer", "extra_patroni_standby"}
    ensures Settled(addr, Split(LineWith(pre, key, value, post), '\''))
         == [pre + key + "=", ReplaceAll(addr, value), post]
  {
    KeyEnds(pre, key);
    LinePieces(pre, key, value, post);
    KeyedValue(addr, pre + key + "=", value, post);
  }

  lemma KeyEnds(pre: string, key: string)
    requires key in {"extra_mongos_shard", "extra_mongos_cfg", "extra_haproxy_pg",
                     "extra_haproxy_patroni", "extra_pgbouncer", "extra_patroni_standby"}
    ensures EndsKey(pre + key + "=") && '\'' !in key
  {
    Behind(pre, key + "=");
    assert pre + key + "=" == pre + (key + "=");
    if key == "extra_mongos_shard" {
      assert key + "=" == "extra_mongos_shard=";
    } else if key == "extra_mongos_cfg" {
      assert key + "=" == "extra_mongos_cfg=";
    } else if key == "extra_haproxy_pg" {
      assert key + "=" == "extra_haproxy_pg=";
    } else if key == "extra_haproxy_patroni" {
      assert key + "=" == "extra_haproxy_patroni=";
    } else if key == "extra_pgbouncer" {
      assert key + "=" == "extra_pgbouncer=";
    } else {
      assert key + "=" == "extra_patroni_standby=";
    }
  }

  lemma Behind(pre: string, t: string)
    ensures HasSuffix(pre + t, t)
  {
    assert (pre + t)[|pre|..] == t;
  }

  /** The value of any other name stays as it is. */
  lemma OtherSettings(addr: Resolver, pre: string, key: string, value: string, post: string)
    requires Resolves(addr) && '\'' !in pre && '\'' !in key && '\'' !in value && '\'' !in post
    requires !HasSuffix(pre + key, "extra_mongos_shard") && !HasSuffix(pre + key, "extra_mongos_cfg")
    requires !HasSuffix(pre + key, "extra_haproxy_pg") && !HasSuffix(pre + key, "extra_haproxy_patroni")
    requires !HasSuffix(pre + key, "extra_pgbouncer") && !HasSuffix(pre + key, "extra_patroni_standby")
    ensures Settled(addr, Split(LineWith(pre, key, value, post), '\'')) == [pre + key + "=", value, post]
  {
    LinePieces(pre, key, value, post);
    NotListed(pre + key);
    SettledThree(addr, pre + key + "=", value, post);
  }

  lemma NotListed(s: string)
    requires !HasSuffix(s, "extra_mongos_shard") && !HasSuffix(s, "extra_mongos_cfg")
    requires !HasSuffix(s, "extra_haproxy_pg") && !HasSuffix(s, "extra_haproxy_patroni")
    requires !HasSuffix(s, "extra_pgbouncer") && !HasSuffix(s, "extra_patroni_standby")
    ensures !EndsKey(s + "=")
  {
    OtherEnds(s, "extra_mongos_shard", "extra_mongos_shard=");
    OtherEnds(s, "extra_mongos_cfg", "extra_mongos_cfg=");
    OtherEnds(s, "extra_haproxy_pg", "extra_haproxy_pg=");
    OtherEnds(s, "extra_haproxy_patroni", "extra_haproxy_patroni=");
    OtherEnds(s, "extra_pgbouncer", "extra_pgbouncer=");
    OtherEnds(s, "extra_patroni_standby", "extra_patroni_standby=");
  }

  lemma OtherEnds(s: string, key: string, full: string)
    requires full == key + "="
    ensures HasSuffix(s + "=", full) <==> HasSuffix(s, key)
  {
    var t := s + "=";
    if |key| <= |s| {
      assert t[|t| - |full|..] == s[|s| - |key|..] + "=";
      assert full[..|key|] == key && (s[|s| - |key|..] + "=")[..|key|] == s[|s| - |key|..];
    }
  }

  /** And it does so on every line whose listed names are separated if and only if every node has an
      address. */
  lemma LinesSufficeIff(addr: Resolver)
    requires Dotted(addr)
    ensures (forall ps | AllSeparated(ps) :: Rest(addr, ps) == AllAtOnce(addr, ps)) <==> Addressed(addr)
  {
    if Addressed(addr) {
      forall ps | AllSeparated(ps) ensures Rest(addr, ps) == AllAtOnce(addr, ps) {
        LineSuffices(addr, ps);
      }
    } else {
      var t :| IsName(t) && addr(t) == "";
      var ps := VanishedLine(addr, t);
      assert AllSeparated(ps) && Rest(addr, ps) != AllAtOnce(addr, ps);
    }
  }

  lemma LineSuffices(addr: Resolver, ps: seq<string>)
    requires Resolves(addr) && AllSeparated(ps)
    ensures Rest(addr, ps) == AllAtOnce(addr, ps)
  {
    RestIsSettled(addr, ps);
    SettledIsAllAtOnce(addr, ps);
  }

  lemma VanishedLine(addr: Resolver, t: string) returns (ps: seq<string>)
    requires Dotted(addr) && IsName(t) && addr(t) == ""
    ensures AllSeparated(ps) && Rest(addr, ps) != AllAtOnce(addr, ps)
  {
    ps := ["extra_pgbouncer=", "no" + (t + "de1"), ""];
    var qs := Rest(addr, ps);
    VanishedNameJoins(addr, t);
    assert Listed(ps, 1) && Listed(qs, 1);
    NoneLeft(addr, qs);
    assert AllAtOnce(addr, ps)[1] == ReplaceAll(addr, ps[1]);
  }
}
