/**
 * The URL and method tests a route fragment applies to a request.
 *
 * A fragment's `url` is compiled into an anchored pattern: every `/:name` marker becomes
 * `/` followed by one or more characters other than line terminators, trailing slashes
 * are removed, and the whole request URL must match. A `method` is compared
 * case-insensitively and exactly.
 * An absent or empty `url` or `method` accepts every request.
 * The `url` and `method` strings are taken to contain no other regular-expression syntax.
 */
module RoutePattern {
  import opened Wrappers

  /** One element of a compiled URL pattern: a literal character or the `.+` wildcard. */
  datatype Token = Lit(c: char) | AnyPlus

  /** The `\w` class of JavaScript regular expressions. */
  predicate IsWordChar(c: char)
  {
    ('a' <= c <= 'z') || ('A' <= c <= 'Z') || ('0' <= c <= '9') || c == '_'
  }

  /** The characters `.` does not match (no `s` flag). */
  predicate IsLineTerminator(c: char)
  {
    c == '\n' || c == '\r' || c == '\U{2028}' || c == '\U{2029}'
  }

  predicate NoLineTerminator(s: string)
  {
    forall i :: 0 <= i < |s| ==> !IsLineTerminator(s[i])
  }

  /** Length of the longest prefix of `s` made of word characters. */
  function WordRun(s: string): (n: nat)
    ensures n <= |s|
    ensures forall i :: 0 <= i < n ==> IsWordChar(s[i])
    ensures n < |s| ==> !IsWordChar(s[n])
  {
    if s != [] && IsWordChar(s[0]) then 1 + WordRun(s[1..]) else 0
  }

  /** `/:name` starts at position `i` of `u` (a `/`, a `:`, then at least one word character). */
  predicate MarkerAt(u: string, i: int)
  {
    0 <= i && i + 2 < |u| && u[i] == '/' && u[i + 1] == ':' && IsWordChar(u[i + 2])
  }

  predicate MarkerFree(u: string)
  {
    forall i :: 0 <= i < |u| ==> !MarkerAt(u, i)
  }

  /** The pattern that matches exactly the characters of `t`. */
  function Lits(t: string): (p: seq<Token>)
    ensures |p| == |t|
    ensures forall i :: 0 <= i < |t| ==> p[i] == Lit(t[i])
  {
    if t == [] then [] else [Lit(t[0])] + Lits(t[1..])
  }

  /** Every `/:name` marker becomes `/` then `.+`; markers are found left to right and `name`
      is the longest run of word characters. */
  function Replace(u: string): (r: seq<Token>)
    ensures |r| <= |u|
    decreases |u|
  {
    if u == [] then []
    else if MarkerAt(u, 0) then [Lit('/'), AnyPlus] + Replace(u[2 + WordRun(u[2..])..])
    else [Lit(u[0])] + Replace(u[1..])
  }

  /** Every wildcard of `p` directly follows a literal `/`. */
  predicate SlashBeforeWildcards(p: seq<Token>)
  {
    forall i :: 0 <= i < |p| && p[i] == AnyPlus ==> 0 < i && p[i - 1] == Lit('/')
  }

  lemma {:induction false} ReplaceSlashBeforeWildcards(u: string)
    ensures SlashBeforeWildcards(Replace(u))
    decreases |u|
  {
    if u != [] {
      if MarkerAt(u, 0) {
        var rest := u[2 + WordRun(u[2..])..];
        ReplaceSlashBeforeWildcards(rest);
        var r := [Lit('/'), AnyPlus] + Replace(rest);
        forall i | 0 <= i < |r| && r[i] == AnyPlus
          ensures 0 < i && r[i - 1] == Lit('/')
        {
          if i >= 2 {
            assert Replace(rest)[i - 2] == AnyPlus;
            if i == 2 {
              assert false;
            }
            assert r[i - 1] == Replace(rest)[i - 3];
          }
        }
      } else {
        ReplaceSlashBeforeWildcards(u[1..]);
        var r := [Lit(u[0])] + Replace(u[1..]);
        forall i | 0 <= i < |r| && r[i] == AnyPlus
          ensures 0 < i && r[i - 1] == Lit('/')
        {
          assert Replace(u[1..])[i - 1] == AnyPlus;
          if i == 1 {
            assert false;
          }
          assert r[i - 1] == Replace(u[1..])[i - 2];
        }
      }
    }
  }

  /** Drops the trailing literal slashes of the pattern source. */
  function StripTrailingSlashes(p: seq<Token>): (r: seq<Token>)
    ensures |r| <= |p| && r == p[..|r|]
    ensures r == [] || r[|r| - 1] != Lit('/')
    ensures forall i :: |r| <= i < |p| ==> p[i] == Lit('/')
  {
    if p != [] && p[|p| - 1] == Lit('/') then StripTrailingSlashes(p[..|p| - 1]) else p
  }

  /** The anchored pattern a url compiles to: every wildcard follows a literal `/`, and
      the pattern never ends in a literal `/`. */
  function Compile(url: string): (r: seq<Token>)
    ensures |r| <= |url|
    ensures r == [] || r[|r| - 1] != Lit('/')
    ensures SlashBeforeWildcards(r)
  {
    ReplaceSlashBeforeWildcards(url);
    StripTrailingSlashes(Replace(url))
  }

  /** Whether the anchored pattern `p` matches the whole of `s`; every token consumes at
      least one character. */
  function Matches(p: seq<Token>, s: string): (b: bool)
    ensures b ==> |p| <= |s|
    decreases |p|, 1, 0
  {
    if p == [] then s == []
    else match p[0]
      case Lit(c) => s != [] && s[0] == c && Matches(p[1..], s[1..])
      case AnyPlus => MatchesAfterAny(p[1..], s, 1)
  }

  /** Whether `.+` can consume `s[..k']` for some `k' >= k` and `rest` then match the remainder. */
  function MatchesAfterAny(rest: seq<Token>, s: string, k: nat): (b: bool)
    ensures b ==> k + |rest| <= |s|
    decreases |rest| + 1, 0, |s| - k
  {
    k <= |s| && NoLineTerminator(s[..k])
    && (Matches(rest, s[k..]) || (k < |s| && MatchesAfterAny(rest, s, k + 1)))
  }

  /** The URL test of a fragment: an absent or empty `url` accepts everything, otherwise the
      compiled pattern must match the whole request URL, which is then at least as long. */
  predicate UrlMatches(url: Option<string>, requestUrl: string)
    ensures (url.None? || url == Some("")) ==> UrlMatches(url, requestUrl)
    ensures UrlMatches(url, requestUrl) && url.Some? && url.value != "" ==> |Compile(url.value)| <= |requestUrl|
  {
    match url
    case None => true
    case Some(u) => u == "" || Matches(Compile(u), requestUrl)
  }

  /** The canonical form the `i` flag compares (ASCII letters only). */
  function FoldChar(c: char): (d: char)
    ensures 'A' <= c <= 'Z' ==> d != c
    ensures !('A' <= c <= 'Z') ==> d == c
  {
    if 'A' <= c <= 'Z' then (c as int - 'A' as int + 'a' as int) as char else c
  }

  function FoldCase(s: string): (r: string)
    ensures |r| == |s|
  {
    if s == [] then [] else [FoldChar(s[0])] + FoldCase(s[1..])
  }

  /** The method test of a fragment: an absent or empty `method` accepts everything, otherwise
      the request method must equal it up to letter case, so has its length. */
  predicate MethodMatches(httpMethod: Option<string>, requestMethod: string)
    ensures (httpMethod.None? || httpMethod == Some("")) ==> MethodMatches(httpMethod, requestMethod)
    ensures MethodMatches(httpMethod, requestMethod) && httpMethod.Some? && httpMethod.value != ""
            ==> |requestMethod| == |httpMethod.value|
  {
    match httpMethod
    case None => true
    case Some(m) => m == "" || FoldCase(requestMethod) == FoldCase(m)
  }

  /** `url` with its trailing slashes removed, as a string. */
  function TrimTrailingSlashes(u: string): (r: string)
    ensures |r| <= |u| && r == u[..|r|]
    ensures r == [] || r[|r| - 1] != '/'
    ensures forall i :: |r| <= i < |u| ==> u[i] == '/'
  {
    if u != [] && u[|u| - 1] == '/' then TrimTrailingSlashes(u[..|u| - 1]) else u
  }

  // ---------------------------------------------------------------------------
  // Lemmas about the matcher

  /** A literal prefix consumes exactly its own characters. */
  lemma {:induction false} MatchesLitsThen(t: string, q: seq<Token>, s: string)
    ensures Matches(Lits(t) + q, s) <==> |t| <= |s| && s[..|t|] == t && Matches(q, s[|t|..])
  {
    if t != [] {
      LitsStep(t);
      ConsAssoc(Lit(t[0]), Lits(t[1..]), q);
      MatchesLitThen(t[0], Lits(t[1..]) + q, s);
      if s != [] {
        MatchesLitsThen(t[1..], q, s[1..]);
        if |t| <= |s| {
          PrefixStep(s, t);
        }
      }
    } else {
      assert Lits(t) + q == q;
    }
  }

  lemma {:induction false} LitsStep(t: string)
    requires t != []
    ensures Lits(t) == [Lit(t[0])] + Lits(t[1..])
  {
  }

  lemma {:induction false} ConsAssoc(a: Token, b: seq<Token>, c: seq<Token>)
    ensures [a] + (b + c) == ([a] + b) + c
  {
  }

  /** Comparing a prefix of `s` with `t` one character at a time. */
  lemma {:induction false} PrefixStep(s: string, t: string)
    requires 1 <= |t| <= |s|
    ensures s[1..][|t| - 1..] == s[|t|..]
    ensures s[..|t|] == t <==> s[0] == t[0] && s[1..][..|t| - 1] == t[1..]
  {
    assert s[..|t|] == [s[0]] + s[1..][..|t| - 1];
  }

  /** A pattern made only of literals matches exactly its own text. */
  lemma {:induction false} MatchesLitsExactly(t: string, s: string)
    ensures Matches(Lits(t), s) <==> s == t
  {
    MatchesLitsThen(t, [], s);
    assert Lits(t) + [] == Lits(t);
  }

  /** `.+` followed by literal text `t`: the text must end the input and everything before it,
      at least `k` characters, must be free of line terminators. */
  lemma {:induction false} MatchesAfterAnyLits(t: string, s: string, k: nat)
    ensures MatchesAfterAny(Lits(t), s, k)
        <==> k + |t| <= |s| && NoLineTerminator(s[..|s| - |t|]) && s[|s| - |t|..] == t
    decreases |s| - k
  {
    if k <= |s| {
      MatchesLitsExactly(t, s[k..]);
      var m := |s| - |t|;
      if k < |s| {
        MatchesAfterAnyLits(t, s, k + 1);
      }
      if k < m && NoLineTerminator(s[..m]) {
        assert forall i :: 0 <= i < k ==> s[..k][i] == s[..m][i];
      }
    }
  }

  lemma {:induction false} WordRunAppend(name: string, post: string)
    requires forall i :: 0 <= i < |name| ==> IsWordChar(name[i])
    requires post == [] || !IsWordChar(post[0])
    ensures WordRun(name + post) == |name|
  {
    if name != [] {
      assert (name + post)[1..] == name[1..] + post;
      WordRunAppend(name[1..], post);
    } else {
      assert name + post == post;
    }
  }

  /** Appending text that starts with `/` to marker-free text does not change how the
      marker-free part is read. */
  lemma {:induction false} ReplaceAfterMarkerFree(pre: string, x: string)
    requires MarkerFree(pre)
    requires x == [] || x[0] == '/'
    ensures Replace(pre + x) == Lits(pre) + Replace(x)
    decreases |pre|
  {
    if pre == [] {
      assert pre + x == x;
    } else {
      var u := pre + x;
      JoinNoMarker(pre, x);
      ReplaceLitStep(u);
      ReplaceAfterMarkerFree(pre[1..], x);
      LitsStep(pre);
      ConsAssoc(Lit(pre[0]), Lits(pre[1..]), Replace(x));
    }
  }

  /** Marker-free text followed by text that starts with `/` has no marker at its start, and
      its tail is marker-free again. */
  lemma {:induction false} JoinNoMarker(pre: string, x: string)
    requires MarkerFree(pre) && pre != []
    requires x == [] || x[0] == '/'
    ensures !MarkerAt(pre + x, 0) && (pre + x)[0] == pre[0] && (pre + x)[1..] == pre[1..] + x
    ensures MarkerFree(pre[1..])
  {
    var u := pre + x;
    if |pre| >= 3 {
      assert !MarkerAt(pre, 0);
      assert u[1] == pre[1] && u[2] == pre[2];
    }
    assert forall i :: 0 <= i < |pre[1..]| ==> (MarkerAt(pre[1..], i) ==> MarkerAt(pre, i + 1));
  }

  lemma {:induction false} ReplaceMarkerFree(u: string)
    requires MarkerFree(u)
    ensures Replace(u) == Lits(u)
  {
    ReplaceAfterMarkerFree(u, []);
    assert u + [] == u;
  }

  /** Appending `/` to a url appends a literal `/` to its pattern source. */
  lemma {:induction false} ReplaceSlash(u: string)
    ensures Replace(u + "/") == Replace(u) + [Lit('/')]
    decreases |u|, 1
  {
    if u == [] {
      assert u + "/" == "/";
    } else if MarkerAt(u, 0) {
      ReplaceSlashAfterMarker(u);
    } else {
      ReplaceSlashAfterLit(u);
    }
  }

  lemma {:induction false} ReplaceSlashAfterMarker(u: string)
    requires MarkerAt(u, 0)
    ensures Replace(u + "/") == Replace(u) + [Lit('/')]
    decreases |u|, 0
  {
    var w := MarkerSlash(u);
    var rest := u[2 + w..];
    ReplaceSlash(rest);
    ReplaceMarkerStep(u);
    ReplaceMarkerStep(u + "/");
    assert [Lit('/'), AnyPlus] + (Replace(rest) + [Lit('/')]) == ([Lit('/'), AnyPlus] + Replace(rest)) + [Lit('/')];
  }

  lemma {:induction false} ReplaceSlashAfterLit(u: string)
    requires u != [] && !MarkerAt(u, 0)
    ensures Replace(u + "/") == Replace(u) + [Lit('/')]
    decreases |u|, 0
  {
    NoMarkerSlash(u);
    ReplaceSlash(u[1..]);
    ReplaceLitStep(u);
    ReplaceLitStep(u + "/");
    assert [Lit(u[0])] + (Replace(u[1..]) + [Lit('/')]) == ([Lit(u[0])] + Replace(u[1..])) + [Lit('/')];
  }

  lemma {:induction false} ReplaceMarkerStep(u: string)
    requires MarkerAt(u, 0)
    ensures Replace(u) == [Lit('/'), AnyPlus] + Replace(u[2 + WordRun(u[2..])..])
  {
  }

  lemma {:induction false} ReplaceLitStep(u: string)
    requires u != [] && !MarkerAt(u, 0)
    ensures Replace(u) == [Lit(u[0])] + Replace(u[1..])
  {
  }

  lemma {:induction false} NoMarkerSlash(u: string)
    requires u != [] && !MarkerAt(u, 0)
    ensures !MarkerAt(u + "/", 0) && (u + "/")[0] == u[0] && (u + "/")[1..] == u[1..] + "/"
  {
    var v := u + "/";
    if |u| >= 3 {
      assert v[0] == u[0] && v[1] == u[1] && v[2] == u[2];
    } else if |u| == 2 {
      assert v[2] == '/';
    }
  }

  /** A marker at the start of `u` reads the same in `u + "/"`, and what follows it gains the `/`. */
  lemma {:induction false} MarkerSlash(u: string) returns (w: nat)
    requires MarkerAt(u, 0)
    ensures w == WordRun(u[2..]) && 2 + w <= |u|
    ensures MarkerAt(u + "/", 0) && WordRun((u + "/")[2..]) == w
    ensures (u + "/")[2 + w..] == u[2 + w..] + "/"
  {
    var v := u + "/";
    w := WordRun(u[2..]);
    assert v[2..] == u[2..] + "/";
    WordRunAppend(u[2..][..w], u[2..][w..] + "/");
    assert u[2..][..w] + (u[2..][w..] + "/") == v[2..];
  }

  lemma {:induction false} StripLits(u: string)
    ensures StripTrailingSlashes(Lits(u)) == Lits(TrimTrailingSlashes(u))
    decreases |u|
  {
    if u != [] && u[|u| - 1] == '/' {
      assert Lits(u)[..|u| - 1] == Lits(u[..|u| - 1]);
      StripLits(u[..|u| - 1]);
    }
  }

  /** A url without `/:name` markers matches exactly itself with trailing slashes removed. */
  lemma {:induction false} LiteralUrl(u: string, requestUrl: string)
    requires u != "" && MarkerFree(u)
    ensures UrlMatches(Some(u), requestUrl) <==> requestUrl == TrimTrailingSlashes(u)
  {
    ReplaceMarkerFree(u);
    StripLits(u);
    MatchesLitsExactly(TrimTrailingSlashes(u), requestUrl);
  }

  /** Trailing slashes on a non-empty url make no difference to which requests it accepts. */
  lemma {:induction false} TrailingSlashIgnored(u: string, requestUrl: string)
    requires u != ""
    ensures UrlMatches(Some(u + "/"), requestUrl) == UrlMatches(Some(u), requestUrl)
  {
    ReplaceSlash(u);
    var p := Replace(u) + [Lit('/')];
    assert p[..|p| - 1] == Replace(u);
  }

  /** The pattern of a url with one `/:name` marker. */
  lemma {:induction false} CompileOneParameter(pre: string, name: string, post: string)
    requires MarkerFree(pre) && MarkerFree(post)
    requires name != [] && forall i :: 0 <= i < |name| ==> IsWordChar(name[i])
    requires post == [] || (!IsWordChar(post[0]) && post[|post| - 1] != '/')
    ensures Compile(pre + "/:" + name + post) == Lits(pre) + ([Lit('/'), AnyPlus] + Lits(post))
  {
    var x := "/:" + (name + post);
    assert pre + "/:" + name + post == pre + x;
    ReplaceAfterMarkerFree(pre, x);
    ReplaceParameter(name, post);
    ReplaceMarkerFree(post);
    var tail := [Lit('/'), AnyPlus] + Lits(post);
    var p := Lits(pre) + tail;
    assert p[|p| - 1] == tail[|tail| - 1];
    if post == [] {
      assert tail[|tail| - 1] == AnyPlus;
    } else {
      assert tail[|tail| - 1] == Lits(post)[|post| - 1] == Lit(post[|post| - 1]);
    }
    StripKeeps(p);
  }

  lemma {:induction false} StripKeeps(p: seq<Token>)
    requires p == [] || p[|p| - 1] != Lit('/')
    ensures StripTrailingSlashes(p) == p
  {
  }

  /** A marker whose name is followed by a non-word character (or nothing) becomes `/.+`. */
  lemma {:induction false} ReplaceParameter(name: string, post: string)
    requires name != [] && forall i :: 0 <= i < |name| ==> IsWordChar(name[i])
    requires post == [] || !IsWordChar(post[0])
    ensures Replace("/:" + (name + post)) == [Lit('/'), AnyPlus] + Replace(post)
  {
    var x := "/:" + (name + post);
    assert MarkerAt(x, 0);
    assert x[2..] == name + post;
    WordRunAppend(name, post);
    assert x[2 + |name|..] == post;
  }

  lemma {:induction false} MatchesLitThen(c: char, q: seq<Token>, s: string)
    ensures Matches([Lit(c)] + q, s) <==> s != [] && s[0] == c && Matches(q, s[1..])
  {
    assert ([Lit(c)] + q)[1..] == q;
  }

  lemma {:induction false} MatchesAnyPlusThen(q: seq<Token>, s: string)
    ensures Matches([AnyPlus] + q, s) == MatchesAfterAny(q, s, 1)
  {
    assert ([AnyPlus] + q)[1..] == q;
  }

  /** `/.+` followed by literal text. */
  lemma {:induction false} MatchesParameterThenLits(post: string, r: string)
    ensures Matches([Lit('/'), AnyPlus] + Lits(post), r)
        <==> && 2 + |post| <= |r| && r[0] == '/'
             && r[|r| - |post|..] == post
             && NoLineTerminator(r[1..|r| - |post|])
  {
    assert [Lit('/'), AnyPlus] + Lits(post) == [Lit('/')] + ([AnyPlus] + Lits(post));
    MatchesLitThen('/', [AnyPlus] + Lits(post), r);
    if r != [] {
      var r' := r[1..];
      MatchesAnyPlusThen(Lits(post), r');
      MatchesAfterAnyLits(post, r', 1);
      if 1 + |post| <= |r'| {
        assert r'[..|r'| - |post|] == r[1..|r| - |post|];
        assert r'[|r'| - |post|..] == r[|r| - |post|..];
      }
    }
  }

  /** `requestUrl` is `pre`, a `/`, one or more characters other than line terminators, then `post`. */
  predicate FillsParameter(pre: string, post: string, requestUrl: string)
  {
    && |pre| + 2 + |post| <= |requestUrl|
    && requestUrl[..|pre| + 1] == pre + "/"
    && requestUrl[|requestUrl| - |post|..] == post
    && NoLineTerminator(requestUrl[|pre| + 1..|requestUrl| - |post|])
  }

  lemma {:induction false} SplitFillsParameter(pre: string, post: string, s: string)
    requires |pre| <= |s|
    ensures FillsParameter(pre, post, s)
        <==> s[..|pre|] == pre && Matches([Lit('/'), AnyPlus] + Lits(post), s[|pre|..])
  {
    var r := s[|pre|..];
    MatchesParameterThenLits(post, r);
    if |pre| + 2 + |post| <= |s| {
      assert r[|r| - |post|..] == s[|s| - |post|..];
      assert r[1..|r| - |post|] == s[|pre| + 1..|s| - |post|];
      assert s[..|pre| + 1] == s[..|pre|] + [r[0]];
      assert (s[..|pre| + 1] == pre + "/") <==> (s[..|pre|] == pre && r[0] == '/');
    }
  }

  /** A url with one `/:name` marker: the request url must start with the text before the
      marker and a `/`, end with the text after it, and hold at least one character (of any
      kind but a line terminator, `/` included) in between. */
  lemma {:induction false} OneParameterUrl(pre: string, name: string, post: string, requestUrl: string)
    requires MarkerFree(pre) && MarkerFree(post)
    requires name != [] && forall i :: 0 <= i < |name| ==> IsWordChar(name[i])
    requires post == [] || (!IsWordChar(post[0]) && post[|post| - 1] != '/')
    ensures UrlMatches(Some(pre + "/:" + name + post), requestUrl) <==> FillsParameter(pre, post, requestUrl)
  {
    var u := pre + "/:" + name + post;
    assert |u| >= 3;
    CompileOneParameter(pre, name, post);
    var tail := [Lit('/'), AnyPlus] + Lits(post);
    assert UrlMatches(Some(u), requestUrl) == Matches(Lits(pre) + tail, requestUrl);
    MatchesLitsThen(pre, tail, requestUrl);
    if |pre| <= |requestUrl| {
      SplitFillsParameter(pre, post, requestUrl);
    }
  }

  // ---------------------------------------------------------------------------
  // Urls with any number of markers

  /** The url `pieces[0] + "/:" + names[0] + pieces[1] + ... + "/:" + names[n - 1] + pieces[n]`. */
  function Template(pieces: seq<string>, names: seq<string>): string
    requires |pieces| == |names| + 1
    decreases |names|
  {
    if names == [] then pieces[0] else pieces[0] + "/:" + names[0] + Template(pieces[1..], names[1..])
  }

  /** The request url that puts `fills[i]` in place of the `i`-th marker of such a url. */
  function Instance(pieces: seq<string>, fills: seq<string>): string
    requires |pieces| == |fills| + 1
    decreases |fills|
  {
    if fills == [] then pieces[0] else pieces[0] + "/" + fills[0] + Instance(pieces[1..], fills[1..])
  }

  /** The compiled form of such a url before trailing slashes are stripped. */
  function TemplateTokens(pieces: seq<string>): seq<Token>
    requires |pieces| >= 1
    decreases |pieces|
  {
    if |pieces| == 1 then Lits(pieces[0])
    else Lits(pieces[0]) + ([Lit('/'), AnyPlus] + TemplateTokens(pieces[1..]))
  }

  /** Marker-free pieces, non-empty word-character names, and no piece after a marker that
      would lengthen its name. */
  predicate TemplateParts(pieces: seq<string>, names: seq<string>)
  {
    && |pieces| == |names| + 1
    && (forall i :: 0 <= i < |pieces| ==> MarkerFree(pieces[i]))
    && (forall i :: 0 <= i < |names| ==> names[i] != "")
    && (forall i, j :: 0 <= i < |names| && 0 <= j < |names[i]| ==> IsWordChar(names[i][j]))
    && (forall i :: 1 <= i < |pieces| && pieces[i] != "" ==> !IsWordChar(pieces[i][0]))
  }

  /** A template url as a route would write it: non-empty and without a trailing slash. */
  predicate WellFormedTemplate(pieces: seq<string>, names: seq<string>)
  {
    && TemplateParts(pieces, names)
    && (names != [] || pieces[0] != "")
    && (pieces[|pieces| - 1] == "" || pieces[|pieces| - 1][|pieces[|pieces| - 1]| - 1] != '/')
  }

  /** Every marker filled with one or more characters other than line terminators. */
  predicate ValidFills(fills: seq<string>)
  {
    forall i :: 0 <= i < |fills| ==> fills[i] != "" && NoLineTerminator(fills[i])
  }

  /** `s` is the template with each marker filled validly. */
  ghost predicate IsInstance(pieces: seq<string>, s: string)
  {
    exists fills :: |pieces| == |fills| + 1 && ValidFills(fills) && s == Instance(pieces, fills)
  }

  lemma {:induction false} TemplatePartsTail(pieces: seq<string>, names: seq<string>)
    requires TemplateParts(pieces, names) && names != []
    ensures TemplateParts(pieces[1..], names[1..])
    ensures pieces[1] != "" ==> !IsWordChar(pieces[1][0])
    ensures MarkerFree(pieces[0])
    ensures names[0] != [] && forall i :: 0 <= i < |names[0]| ==> IsWordChar(names[0][i])
  {
    assert forall i :: 0 <= i < |pieces| - 1 ==> pieces[1..][i] == pieces[i + 1];
    assert forall i :: 0 <= i < |names| - 1 ==> names[1..][i] == names[i + 1];
  }

  lemma {:induction false} TemplateStep(pieces: seq<string>, names: seq<string>)
    requires |pieces| == |names| + 1 && names != []
    ensures Template(pieces, names) == pieces[0] + ("/:" + (names[0] + Template(pieces[1..], names[1..])))
  {
  }

  lemma {:induction false} TemplateTokensStep(pieces: seq<string>)
    requires |pieces| > 1
    ensures TemplateTokens(pieces) == Lits(pieces[0]) + ([Lit('/'), AnyPlus] + TemplateTokens(pieces[1..]))
  {
  }

  /** A template whose first piece does not start with a word character does not either. */
  lemma {:induction false} TemplateStart(pieces: seq<string>, names: seq<string>)
    requires |pieces| == |names| + 1
    requires pieces[0] == "" || !IsWordChar(pieces[0][0])
    ensures Template(pieces, names) == [] || !IsWordChar(Template(pieces, names)[0])
  {
    if names != [] {
      var u := Template(pieces, names);
      assert u == pieces[0] + ("/:" + names[0] + Template(pieces[1..], names[1..]));
      if pieces[0] == "" {
        assert u[0] == '/';
      } else {
        assert u[0] == pieces[0][0];
      }
    }
  }

  lemma {:induction false} ReplaceTemplate(pieces: seq<string>, names: seq<string>)
    requires TemplateParts(pieces, names)
    ensures Replace(Template(pieces, names)) == TemplateTokens(pieces)
    decreases |names|
  {
    if names == [] {
      ReplaceMarkerFree(pieces[0]);
    } else {
      TemplatePartsTail(pieces, names);
      var post := Template(pieces[1..], names[1..]);
      ReplaceTemplate(pieces[1..], names[1..]);
      TemplateStart(pieces[1..], names[1..]);
      ReplaceParameter(names[0], post);
      var x := "/:" + (names[0] + post);
      TemplateStep(pieces, names);
      ReplaceAfterMarkerFree(pieces[0], x);
      TemplateTokensStep(pieces);
    }
  }

  /** The compiled form of a template ends in its last piece, or in a wildcard. */
  lemma {:induction false} TemplateTokensEnd(pieces: seq<string>)
    requires |pieces| >= 1
    requires pieces[|pieces| - 1] == "" || pieces[|pieces| - 1][|pieces[|pieces| - 1]| - 1] != '/'
    ensures TemplateTokens(pieces) == [] || TemplateTokens(pieces)[|TemplateTokens(pieces)| - 1] != Lit('/')
    decreases |pieces|
  {
    if |pieces| > 1 {
      assert pieces[1..][|pieces[1..]| - 1] == pieces[|pieces| - 1];
      TemplateTokensEnd(pieces[1..]);
      var tail := [Lit('/'), AnyPlus] + TemplateTokens(pieces[1..]);
      assert TemplateTokens(pieces)[|TemplateTokens(pieces)| - 1] == tail[|tail| - 1];
    }
  }

  /** `.+` then `q`: some non-empty prefix of the input without line terminators, then `q`
      matching the rest. */
  lemma {:induction false} MatchesAfterAnyExists(q: seq<Token>, s: string, k: nat)
    ensures MatchesAfterAny(q, s, k)
        <==> exists j :: k <= j <= |s| && NoLineTerminator(s[..j]) && Matches(q, s[j..])
    decreases |s| - k
  {
    if k <= |s| {
      if k < |s| {
        MatchesAfterAnyExists(q, s, k + 1);
      }
      if exists j :: k <= j <= |s| && NoLineTerminator(s[..j]) && Matches(q, s[j..]) {
        var j :| k <= j <= |s| && NoLineTerminator(s[..j]) && Matches(q, s[j..]);
        assert forall i :: 0 <= i < k ==> s[..k][i] == s[..j][i];
        assert NoLineTerminator(s[..k]);
      }
      if MatchesAfterAny(q, s, k) && Matches(q, s[k..]) {
        assert k <= k <= |s| && NoLineTerminator(s[..k]) && Matches(q, s[k..]);
      }
    }
  }

  /** A split point where `.+` can stop. */
  lemma {:induction false} ChooseSplit(q: seq<Token>, s: string, k: nat) returns (j: nat)
    requires MatchesAfterAny(q, s, k)
    ensures k <= j <= |s| && NoLineTerminator(s[..j]) && Matches(q, s[j..])
  {
    MatchesAfterAnyExists(q, s, k);
    j :| k <= j <= |s| && NoLineTerminator(s[..j]) && Matches(q, s[j..]);
  }

  lemma {:induction false} ChooseFills(pieces: seq<string>, s: string) returns (fills: seq<string>)
    requires IsInstance(pieces, s)
    ensures |pieces| == |fills| + 1 && ValidFills(fills) && s == Instance(pieces, fills)
  {
    fills :| |pieces| == |fills| + 1 && ValidFills(fills) && s == Instance(pieces, fills);
  }

  lemma {:induction false} InstanceStep(pieces: seq<string>, fills: seq<string>)
    requires |pieces| == |fills| + 1 && fills != []
    ensures Instance(pieces, fills) == pieces[0] + ("/" + (fills[0] + Instance(pieces[1..], fills[1..])))
    ensures ValidFills(fills) ==> ValidFills(fills[1..])
  {
    assert forall i :: 0 <= i < |fills| - 1 ==> fills[1..][i] == fills[i + 1];
  }

  /** The compiled form of a template matches exactly its valid instances. */
  lemma {:induction false} MatchesTemplateTokens(pieces: seq<string>, s: string)
    requires |pieces| >= 1
    ensures Matches(TemplateTokens(pieces), s) <==> IsInstance(pieces, s)
    decreases |pieces|, 1
  {
    if |pieces| == 1 {
      MatchesLitsExactly(pieces[0], s);
      if s == pieces[0] {
        assert Instance(pieces, []) == pieces[0];
        assert ValidFills([]);
      }
    } else {
      if Matches(TemplateTokens(pieces), s) {
        MatchesTemplateSplit(pieces, s);
        MatchedIsInstance(pieces, s);
      }
      if IsInstance(pieces, s) {
        InstanceMatches(pieces, s);
      }
    }
  }

  /** Matching a template of several pieces: its first piece, a `/`, then `.+` and the rest. */
  lemma {:induction false} MatchesTemplateSplit(pieces: seq<string>, s: string)
    requires |pieces| > 1
    ensures Matches(TemplateTokens(pieces), s)
        <==> && |pieces[0]| + 1 <= |s| && s[..|pieces[0]|] == pieces[0] && s[|pieces[0]|] == '/'
             && MatchesAfterAny(TemplateTokens(pieces[1..]), s[|pieces[0]| + 1..], 1)
  {
    var p0 := pieces[0];
    var q := TemplateTokens(pieces[1..]);
    assert TemplateTokens(pieces) == Lits(p0) + ([Lit('/')] + ([AnyPlus] + q));
    MatchesLitsThen(p0, [Lit('/')] + ([AnyPlus] + q), s);
    if |p0| <= |s| {
      var s1 := s[|p0|..];
      MatchesLitThen('/', [AnyPlus] + q, s1);
      if s1 != [] {
        assert s1[1..] == s[|p0| + 1..];
        MatchesAnyPlusThen(q, s1[1..]);
      }
    }
  }

  lemma {:induction false} MatchedIsInstance(pieces: seq<string>, s: string)
    requires |pieces| > 1
    requires |pieces[0]| + 1 <= |s| && s[..|pieces[0]|] == pieces[0] && s[|pieces[0]|] == '/'
    requires MatchesAfterAny(TemplateTokens(pieces[1..]), s[|pieces[0]| + 1..], 1)
    ensures IsInstance(pieces, s)
    decreases |pieces|, 0
  {
    var p0 := pieces[0];
    var rest := pieces[1..];
    var s2 := s[|p0| + 1..];
    var j := ChooseSplit(TemplateTokens(rest), s2, 1);
    MatchesTemplateTokens(rest, s2[j..]);
    var fills' := ChooseFills(rest, s2[j..]);
    var fills := ConsFill(pieces, s2[..j], fills');
    Reassemble(s, |p0|, j);
    assert |pieces| == |fills| + 1 && ValidFills(fills) && s == Instance(pieces, fills);
  }

  lemma {:induction false} Reassemble(s: string, n: nat, j: nat)
    requires n + 1 + j <= |s|
    ensures s == s[..n] + ([s[n]] + (s[n + 1..][..j] + s[n + 1..][j..]))
  {
    assert s[n + 1..] == s[n + 1..][..j] + s[n + 1..][j..];
    assert s[n..] == [s[n]] + s[n + 1..];
    assert s == s[..n] + s[n..];
  }

  /** Filling the first marker with `v` in front of an instance of the remaining pieces. */
  lemma {:induction false} ConsFill(pieces: seq<string>, v: string, fills': seq<string>) returns (fills: seq<string>)
    requires |pieces| == |fills'| + 2
    requires v != "" && NoLineTerminator(v) && ValidFills(fills')
    ensures |pieces| == |fills| + 1 && ValidFills(fills)
    ensures Instance(pieces, fills) == pieces[0] + ("/" + (v + Instance(pieces[1..], fills')))
  {
    fills := [v] + fills';
    assert fills[0] == v && fills[1..] == fills';
    assert forall i :: 1 <= i < |fills| ==> fills[i] == fills'[i - 1];
    InstanceStep(pieces, fills);
  }

  lemma {:induction false} InstanceMatches(pieces: seq<string>, s: string)
    requires |pieces| > 1
    requires IsInstance(pieces, s)
    ensures Matches(TemplateTokens(pieces), s)
    decreases |pieces|, 0
  {
    var p0 := pieces[0];
    var rest := pieces[1..];
    var q := TemplateTokens(rest);
    var fills := ChooseFills(pieces, s);
    InstanceStep(pieces, fills);
    var v := fills[0];
    var t := Instance(rest, fills[1..]);
    Disassemble(p0, v, t);
    var s2 := s[|p0| + 1..];
    assert |rest| == |fills[1..]| + 1 && ValidFills(fills[1..]) && t == Instance(rest, fills[1..]);
    MatchesTemplateTokens(rest, t);
    StopAfterAny(q, s2, |v|);
    MatchesTemplateSplit(pieces, s);
  }

  lemma {:induction false} Disassemble(p0: string, v: string, t: string)
    ensures var s := p0 + ("/" + (v + t));
      && s[..|p0|] == p0 && s[|p0|] == '/' && s[|p0| + 1..] == v + t
      && (v + t)[..|v|] == v && (v + t)[|v|..] == t
  {
  }

  /** `.+` can stop at any non-empty prefix free of line terminators after which `q` matches. */
  lemma {:induction false} StopAfterAny(q: seq<Token>, s: string, j: nat)
    requires 1 <= j <= |s| && NoLineTerminator(s[..j]) && Matches(q, s[j..])
    ensures MatchesAfterAny(q, s, 1)
  {
    MatchesAfterAnyExists(q, s, 1);
  }

  /** A url with any number of `/:name` markers accepts exactly the request urls that fill
      each marker with one or more characters other than line terminators (`/` included)
      and agree with the url elsewhere. */
  lemma {:induction false} TemplateUrl(pieces: seq<string>, names: seq<string>, requestUrl: string)
    requires WellFormedTemplate(pieces, names)
    ensures UrlMatches(Some(Template(pieces, names)), requestUrl) <==> IsInstance(pieces, requestUrl)
  {
    var u := Template(pieces, names);
    if names != [] {
      assert u == pieces[0] + "/:" + names[0] + Template(pieces[1..], names[1..]);
    }
    assert u != "";
    ReplaceTemplate(pieces, names);
    TemplateTokensEnd(pieces);
    StripKeeps(TemplateTokens(pieces));
    MatchesTemplateTokens(pieces, requestUrl);
  }

  lemma {:induction false} FoldCaseAt(s: string)
    ensures forall i :: 0 <= i < |s| ==> FoldCase(s)[i] == FoldChar(s[i])
  {
    if s != [] {
      FoldCaseAt(s[1..]);
      assert forall i :: 1 <= i < |s| ==> s[1..][i - 1] == s[i];
    }
  }

  /** The method test is equality of the two strings up to the case of ASCII letters. */
  lemma {:induction false} MethodTestIsCaseInsensitiveEquality(m: string, requestMethod: string)
    requires m != ""
    ensures MethodMatches(Some(m), requestMethod)
        <==> |requestMethod| == |m| && forall i :: 0 <= i < |m| ==> FoldChar(requestMethod[i]) == FoldChar(m[i])
  {
    FoldCaseAt(m);
    FoldCaseAt(requestMethod);
    if |requestMethod| == |m| && forall i :: 0 <= i < |m| ==> FoldChar(requestMethod[i]) == FoldChar(m[i]) {
      assert FoldCase(requestMethod) == FoldCase(m);
    }
  }

  /** A fragment without `url` or `method` accepts every request on that dimension. */
  lemma {:induction false} WildcardsAcceptAll(requestUrl: string, requestMethod: string)
    ensures UrlMatches(None, requestUrl) && UrlMatches(Some(""), requestUrl)
    ensures MethodMatches(None, requestMethod) && MethodMatches(Some(""), requestMethod)
  {
  }
}
