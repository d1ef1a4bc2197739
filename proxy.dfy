/** The playlist rewrite of aiosxm/proxy.py and the paths of its stream routes.
    The playlist handler replaces every match of the regular expression
    `#EXT-X-KEY:METHOD=AES-128,URI="(.+?)"` by the same directive pointing at the
    proxy's own key route; `Rewrite` is that substitution written out as a
    left-to-right scanner. The scanner and its lemmas are stated for any literal
    prefix shaped like the pattern's (`KeyShaped`), and the proxy's own rewrite,
    `RewritePlaylist`, instantiates them with `KeyPrefix`. `Resolve` is the dispatch
    of a request path onto the three stream routes. */
module Proxy {
  import opened Common

  /** The literal part of the pattern, up to and including the opening quote. */
  const KeyPrefix := "#EXT-X-KEY:METHOD=AES-128,URI=\""

  /** The local path of the key route for one entity. */
  function KeyPath(entityType: string, entityId: string): string
  {
    "/stream/" + entityType + "/" + entityId + "/key"
  }

  /** The replacement text for one entity. */
  function Replacement(entityType: string, entityId: string): string
  {
    KeyPrefix + KeyPath(entityType, entityId) + "\""
  }

  /** The shape of the pattern's literal prefix that the rewrite's properties rest on:
      a `#` first and nowhere else, no line break, an opening quote last. */
  predicate KeyShaped(p: string)
  {
    && |p| >= 2 && p[0] == '#' && p[|p| - 1] == '"' && '\n' !in p
    && forall j | 0 < j < |p| :: p[j] != '#'
  }

  /** `(.+?)"` from the second character of the group on: the index of the first
      quote that no line break precedes. */
  function QuoteAt(t: string): (q: Option<nat>)
    ensures q.Some? ==> q.value < |t| && t[q.value] == '"' && '"' !in t[..q.value] && '\n' !in t[..q.value]
  {
    if t == [] then None
    else if t[0] == '"' then Some(0)
    else if t[0] == '\n' then None
    else
      var q := QuoteAt(t[1..]);
      if q.Some? then
        assert t[..q.value + 1] == [t[0]] + t[1..][..q.value];
        Some(q.value + 1)
      else None
  }

  /** The length of the match at the start of `t`, if any: the prefix `p`, one
      character of the group that is not a line break, then the rest of the group up
      to the first quote before any line break, and that quote. */
  function MatchLen(p: string, t: string): (n: Option<nat>)
    ensures n.Some? ==> |p| + 2 <= n.value <= |t| && StartsWith(t, p)
  {
    if |t| > |p| && t[..|p|] == p && t[|p|] != '\n' then
      var q := QuoteAt(t[|p| + 1..]);
      if q.Some? then Some(|p| + 1 + q.value + 1) else None
    else None
  }

  /** `re.sub(pattern, rep, t)`: matches are replaced left to right, and scanning
      resumes after each one, so they never overlap. */
  function Rewrite(p: string, t: string, rep: string): string
    decreases |t|
  {
    if t == [] then []
    else
      match MatchLen(p, t)
      case Some(n) => rep + Rewrite(p, t[n..], rep)
      case None => [t[0]] + Rewrite(p, t[1..], rep)
  }

  predicate NoBackslash(s: string) { '\\' !in s }

  /** The proxy's playlist rewrite for one entity. The replacement is a template of
      `re.sub`, which would interpret backslash escapes; the entity names have none. */
  function RewritePlaylist(playlist: string, entityType: string, entityId: string): string
    requires NoBackslash(entityType) && NoBackslash(entityId)
  {
    Rewrite(KeyPrefix, playlist, Replacement(entityType, entityId))
  }

  lemma {:induction false} KeyPrefixShaped()
    ensures KeyShaped(KeyPrefix)
  {
  }

  // ---------------------------------------------------------------------------
  // Where the pattern matches

  lemma {:induction false} PrefixChar(p: string, t: string, i: nat)
    requires StartsWith(t, p) && i < |p|
    ensures t[i] == p[i]
  {
    assert t[..|p|][i] == t[i];
  }

  lemma {:induction false} PrefixDiffers(p: string, t: string, i: nat)
    requires i < |p| && i < |t| && t[i] != p[i]
    ensures !StartsWith(t, p)
  {
    if |p| <= |t| {
      assert t[..|p|][i] == t[i];
    }
  }

  lemma {:induction false} NotHashNoMatch(p: string, t: string)
    requires KeyShaped(p) && t != [] && t[0] != '#'
    ensures MatchLen(p, t).None?
  {
    PrefixDiffers(p, t, 0);
  }

  lemma {:induction false} QuoteAfter(w: string, r: string)
    requires '"' !in w && '\n' !in w && r != [] && r[0] == '"'
    ensures QuoteAt(w + r) == Some(|w|)
    decreases |w|
  {
    if w != [] {
      assert (w + r)[1..] == w[1..] + r;
      QuoteAfter(w[1..], r);
    }
  }

  lemma {:induction false} NoQuoteBeforeBreak(w: string, r: string)
    requires '"' !in w && '\n' !in w && (r == [] || r[0] == '\n')
    ensures QuoteAt(w + r).None?
    decreases |w|
  {
    if w == [] {
      assert w + r == r;
    } else {
      assert (w + r)[1..] == w[1..] + r;
      NoQuoteBeforeBreak(w[1..], r);
    }
  }

  lemma {:induction false} QuoteUpToBreak(w: string, r: string)
    requires '\n' !in w && r != [] && r[0] == '\n'
    ensures QuoteAt(w + r) == QuoteAt(w)
    decreases |w|
  {
    if w == [] {
      assert w + r == r;
    } else {
      assert (w + r)[1..] == w[1..] + r;
      QuoteUpToBreak(w[1..], r);
    }
  }

  /** The length of the stretch before the first line break. */
  function LineEnd(w: string): (n: nat)
    ensures n <= |w| && '\n' !in w[..n] && (n < |w| ==> w[n] == '\n')
  {
    if w == [] then 0
    else if w[0] == '\n' then 0
    else
      var n := LineEnd(w[1..]);
      assert w[..n + 1] == [w[0]] + w[1..][..n];
      n + 1
  }

  /** When the quote search fails, no quote occurs before the first line break. */
  lemma {:induction false} QuoteAtNone(w: string)
    requires QuoteAt(w).None?
    ensures '"' !in w[..LineEnd(w)]
    decreases |w|
  {
    if w != [] && w[0] != '\n' {
      QuoteAtNone(w[1..]);
      assert w[..LineEnd(w)] == [w[0]] + w[1..][..LineEnd(w[1..])];
    }
  }

  function FirstHash(x: string): (f: nat)
    ensures f <= |x| && '#' !in x[..f] && (f < |x| ==> x[f] == '#')
  {
    if x == [] then 0
    else if x[0] == '#' then 0
    else
      var f := FirstHash(x[1..]);
      assert x[..f + 1] == [x[0]] + x[1..][..f];
      f + 1
  }

  /** The pattern matches the prefix, a non-empty group with no line break and no
      quote after its first character, and the closing quote. */
  lemma {:induction false} MatchOf(p: string, v: string, post: string)
    requires v != [] && '\n' !in v && '"' !in v[1..]
    ensures MatchLen(p, p + v + "\"" + post) == Some(|p| + |v| + 1)
  {
    var t := p + v + "\"" + post;
    assert t[..|p|] == p;
    assert t[|p|] == v[0];
    assert t[|p| + 1..] == v[1..] + ("\"" + post);
    QuoteAfter(v[1..], "\"" + post);
  }

  /** Where no match starts, the scanner copies one character. */
  lemma {:induction false} CopyStep(p: string, t: string, rep: string)
    requires t != [] && MatchLen(p, t).None?
    ensures Rewrite(p, t, rep) == [t[0]] + Rewrite(p, t[1..], rep)
  {
  }

  /** Where a match of length `n` starts, the scanner emits the replacement and skips it. */
  lemma {:induction false} MatchStep(p: string, t: string, rep: string, n: nat)
    requires t != [] && MatchLen(p, t) == Some(n)
    ensures n <= |t| && Rewrite(p, t, rep) == rep + Rewrite(p, t[n..], rep)
  {
  }

  /** A copied character followed by the copy of the rest of `u`. */
  lemma {:induction false} ConsCopy(u: string, w: string, r: string)
    requires u != [] && w == u[1..] + r
    ensures [u[0]] + w == u + r
  {
  }

  lemma {:induction false} NoHashCopied(p: string, u: string, v: string, rep: string)
    requires KeyShaped(p) && '#' !in u
    ensures Rewrite(p, u + v, rep) == u + Rewrite(p, v, rep)
    decreases |u|
  {
    if u == [] {
      assert u + v == v;
    } else {
      var t := u + v;
      NotHashNoMatch(p, t);
      CopyStep(p, t, rep);
      assert t[1..] == u[1..] + v;
      NoHashCopied(p, u[1..], v, rep);
      ConsCopy(u, Rewrite(p, t[1..], rep), Rewrite(p, v, rep));
    }
  }

  /** Up to the first `#` the rewrite copies its input, and what it makes of the text
      from there on starts with a `#` again. */
  lemma {:induction false} UpToFirstHash(p: string, x: string, rep: string)
    requires KeyShaped(p) && rep != [] && rep[0] == '#'
    ensures var f := FirstHash(x);
      && Rewrite(p, x, rep) == x[..f] + Rewrite(p, x[f..], rep)
      && (f < |x| ==> Rewrite(p, x[f..], rep) != [] && Rewrite(p, x[f..], rep)[0] == '#')
  {
    var f := FirstHash(x);
    assert x == x[..f] + x[f..];
    NoHashCopied(p, x[..f], x[f..], rep);
  }

  lemma {:induction false} LineStartNoMatch(p: string, u: string, v: string)
    requires KeyShaped(p) && u != [] && '\n' !in u && '"' !in u[1..] && (v == [] || v[0] == '\n')
    ensures MatchLen(p, u + v).None?
  {
    var t := u + v;
    var last := |p| - 1;
    if last < |u| {
      assert u[1..][last - 1] == u[last];
      PrefixDiffers(p, t, last);
    } else if |u| < |t| {
      assert t[|u|] == v[0];
      PrefixDiffers(p, t, |u|);
    }
  }

  /** A line with no quote after its first character: no match starts in it, and its
      line break stops any match from reaching past it. */
  lemma {:induction false} CopyLine(p: string, u: string, v: string, rep: string)
    requires KeyShaped(p) && '\n' !in u && (|u| > 0 ==> '"' !in u[1..]) && (v == [] || v[0] == '\n')
    ensures Rewrite(p, u + v, rep) == u + Rewrite(p, v, rep)
    decreases |u|
  {
    if u == [] {
      assert u + v == v;
    } else {
      var t := u + v;
      LineStartNoMatch(p, u, v);
      CopyStep(p, t, rep);
      assert t[1..] == u[1..] + v;
      CopyLine(p, u[1..], v, rep);
      ConsCopy(u, Rewrite(p, t[1..], rep), Rewrite(p, v, rep));
    }
  }

  lemma {:induction false} RewriteStartsWithBreak(p: string, v: string, rep: string)
    requires KeyShaped(p) && v != [] && v[0] == '\n'
    ensures Rewrite(p, v, rep) != [] && Rewrite(p, v, rep)[0] == '\n'
  {
    NotHashNoMatch(p, v);
  }

  /** A match inside a line does not depend on what follows the line. */
  lemma {:induction false} LineMatch(p: string, l: string, r: string)
    requires KeyShaped(p) && '\n' !in l && l != []
    ensures MatchLen(p, l + "\n" + r) == MatchLen(p, l)
  {
    var t := l + "\n" + r;
    var m := |p|;
    if |l| > m {
      assert t[..m] == l[..m] && t[m] == l[m];
      assert t[m + 1..] == l[m + 1..] + ("\n" + r);
      QuoteUpToBreak(l[m + 1..], "\n" + r);
    } else if |l| < m {
      assert t[|l|] == '\n';
      PrefixDiffers(p, t, |l|);
    } else {
      assert t[m] == '\n';
    }
  }

  lemma {:induction false} NoPrefixTail(p: string, pre: string)
    requires pre != [] && !Contains(pre, p)
    ensures !Contains(pre[1..], p) && !StartsWith(pre, p)
  {
    assert pre[0..] == pre;
    forall i | 0 <= i <= |pre[1..]|
      ensures !StartsWith(pre[1..][i..], p)
    {
      assert pre[1..][i..] == pre[i + 1..];
    }
  }

  /** No match starts in text without the prefix when a `#` follows it. */
  lemma {:induction false} BeforeKeyNoMatch(p: string, pre: string, rest: string)
    requires KeyShaped(p) && pre != [] && !StartsWith(pre, p) && rest != [] && rest[0] == '#'
    ensures MatchLen(p, pre + rest).None?
  {
    var t := pre + rest;
    if |pre| >= |p| {
      assert pre[..|p|] == t[..|p|];
    } else {
      assert t[|pre|] == '#';
      PrefixDiffers(p, t, |pre|);
    }
  }

  // ---------------------------------------------------------------------------
  // What the scanner promises, for any prefix shaped like the pattern's

  lemma {:induction false} NoPrefixUnchanged(p: string, t: string, rep: string)
    requires !Contains(t, p)
    ensures Rewrite(p, t, rep) == t
    decreases |t|
  {
    if t != [] {
      NoPrefixTail(p, t);
      NoPrefixUnchanged(p, t[1..], rep);
    }
  }

  lemma {:induction false} ByLine(p: string, l: string, r: string, rep: string)
    requires KeyShaped(p) && '\n' !in l
    ensures Rewrite(p, l + "\n" + r, rep) == Rewrite(p, l, rep) + "\n" + Rewrite(p, r, rep)
    decreases |l|
  {
    var t := l + "\n" + r;
    if l == [] {
      assert t == "\n" + r;
      NotHashNoMatch(p, t);
      CopyStep(p, t, rep);
      assert t[1..] == r;
      assert Rewrite(p, l, rep) + "\n" + Rewrite(p, r, rep) == "\n" + Rewrite(p, r, rep);
    } else {
      LineMatch(p, l, r);
      var n := if MatchLen(p, l).Some? then MatchLen(p, l).value else 1;
      var head := if MatchLen(p, l).Some? then rep else [l[0]];
      if MatchLen(p, l).Some? {
        MatchStep(p, t, rep, n);
        MatchStep(p, l, rep, n);
      } else {
        CopyStep(p, t, rep);
        CopyStep(p, l, rep);
      }
      DropBeforeBreak(l, r, n);
      ByLine(p, l[n..], r, rep);
      RegroupLine(head, Rewrite(p, l[n..], rep), Rewrite(p, r, rep));
    }
  }

  lemma {:induction false} DropBeforeBreak(l: string, r: string, n: nat)
    requires n <= |l|
    ensures (l + "\n" + r)[n..] == l[n..] + "\n" + r
  {
  }

  lemma {:induction false} RegroupLine(a: string, b: string, c: string)
    ensures a + (b + "\n" + c) == (a + b) + "\n" + c
  {
  }

  /** Text without the prefix, followed by a `#`, is copied unchanged. */
  lemma {:induction false} CopyBeforeKey(p: string, pre: string, rest: string, rep: string)
    requires KeyShaped(p) && !Contains(pre, p) && rest != [] && rest[0] == '#'
    ensures Rewrite(p, pre + rest, rep) == pre + Rewrite(p, rest, rep)
    decreases |pre|
  {
    if pre == [] {
      assert pre + rest == rest;
    } else {
      NoPrefixTail(p, pre);
      var tail := pre[1..];
      var r := Rewrite(p, rest, rep);
      CopyFirst(p, pre, rest, rep);
      CopyBeforeKey(p, tail, rest, rep);
      ConsCopy(pre, Rewrite(p, tail + rest, rep), r);
    }
  }

  lemma {:induction false} CopyFirst(p: string, pre: string, rest: string, rep: string)
    requires KeyShaped(p) && pre != [] && !StartsWith(pre, p) && rest != [] && rest[0] == '#'
    ensures Rewrite(p, pre + rest, rep) == [pre[0]] + Rewrite(p, pre[1..] + rest, rep)
  {
    var t := pre + rest;
    BeforeKeyNoMatch(p, pre, rest);
    assert t[1..] == pre[1..] + rest;
  }

  lemma {:induction false} KeyLine(p: string, pre: string, v: string, post: string, rep: string)
    requires KeyShaped(p) && !Contains(pre, p)
    requires v != [] && '\n' !in v && '"' !in v[1..]
    ensures Rewrite(p, pre + p + v + "\"" + post, rep) == pre + rep + Rewrite(p, post, rep)
  {
    var rest := p + v + "\"" + post;
    assert pre + p + v + "\"" + post == pre + rest;
    CopyBeforeKey(p, pre, rest, rep);
    MatchOf(p, v, post);
    assert rest[|p| + |v| + 1..] == post;
  }

  /** After a prefix that did not match, the first pass kept the line as it was up to
      its line break, so the second pass cannot match there either. */
  lemma {:induction false} PrefixThenNoMatch(p: string, z: string, rep: string)
    requires KeyShaped(p) && MatchLen(p, p + z).None?
    ensures MatchLen(p, p + Rewrite(p, z, rep)).None?
  {
    if z == [] {
      assert p + Rewrite(p, z, rep) == p;
    } else if z[0] == '\n' {
      var t := p + Rewrite(p, z, rep);
      RewriteStartsWithBreak(p, z, rep);
      assert t[|p|] == '\n';
    } else {
      PrefixMatchFails(p, z);
      FirstLineKept(p, z, rep);
    }
  }

  /** A line the first pass found no closing quote in is copied up to its line break,
      so the prefix in front of it does not match on the second pass either. */
  lemma {:induction false} FirstLineKept(p: string, z: string, rep: string)
    requires KeyShaped(p) && z != [] && z[0] != '\n' && QuoteAt(z[1..]).None?
    ensures MatchLen(p, p + Rewrite(p, z, rep)).None?
  {
    var n := 1 + LineEnd(z[1..]);
    SplitAtLineEnd(z);
    var u := z[..n];
    var v := z[n..];
    CopyLine(p, u, v, rep);
    var w := Rewrite(p, v, rep);
    if v != [] {
      RewriteStartsWithBreak(p, v, rep);
    }
    assert Rewrite(p, z, rep) == u + w;
    assert p + (u + w) == p + u + w;
    PrefixLineNoMatch(p, u, w);
  }

  /** The first line of `z`, when the quote search after its first character fails. */
  lemma {:induction false} SplitAtLineEnd(z: string)
    requires z != [] && z[0] != '\n' && QuoteAt(z[1..]).None?
    ensures var n := 1 + LineEnd(z[1..]);
      && n <= |z| && z == z[..n] + z[n..] && z[..n] != [] && z[..n][0] != '\n'
      && '\n' !in z[..n] && '"' !in z[..n][1..] && (z[n..] == [] || z[n..][0] == '\n')
  {
    var br := LineEnd(z[1..]);
    QuoteAtNone(z[1..]);
    var u := z[..1 + br];
    assert u[1..] == z[1..][..br];
    assert u == [z[0]] + u[1..];
  }

  lemma {:induction false} PrefixMatchFails(p: string, z: string)
    requires z != [] && z[0] != '\n' && MatchLen(p, p + z).None?
    ensures QuoteAt(z[1..]).None?
  {
    var s := p + z;
    assert s[..|p|] == p && s[|p|] == z[0];
    assert s[|p| + 1..] == z[1..];
  }

  lemma {:induction false} PrefixLineNoMatch(p: string, u: string, r: string)
    requires u != [] && u[0] != '\n' && '\n' !in u[1..] && '"' !in u[1..] && (r == [] || r[0] == '\n')
    ensures MatchLen(p, p + u + r).None?
  {
    var t := p + u + r;
    assert t[..|p|] == p && t[|p|] == u[0];
    assert t[|p| + 1..] == u[1..] + r;
    NoQuoteBeforeBreak(u[1..], r);
  }

  /** Where the text after a `#` is not the rest of the prefix, the first pass keeps
      it up to its next `#`, so the second pass sees no prefix there either. */
  lemma {:induction false} NotPrefixNoMatch(p: string, x: string, rep: string)
    requires KeyShaped(p) && !StartsWith(x, p[1..])
    requires rep != [] && rep[0] == '#'
    ensures MatchLen(p, ['#'] + Rewrite(p, x, rep)).None?
  {
    var y := Rewrite(p, x, rep);
    var f := FirstHash(x);
    var m := |p| - 1;
    UpToFirstHash(p, x, rep);
    var w := Rewrite(p, x[f..], rep);
    assert y == x[..f] + w;
    if f >= m {
      KeepsFront(x[..f], w, m);
      assert x[..f][..m] == x[..m];
      NotRestOfPrefix(p, x, y);
    } else if f == |x| {
      assert x[f..] == [];
      assert |y| == |x|;
      assert |['#'] + y| < |p|;
    } else {
      HashTooEarly(p, x[..f], w);
    }
  }

  lemma {:induction false} KeepsFront(a: string, b: string, m: nat)
    requires m <= |a|
    ensures m <= |a + b| && (a + b)[..m] == a[..m]
  {
  }

  /** A `#` followed by text that does not begin like the rest of the prefix. */
  lemma {:induction false} NotRestOfPrefix(p: string, x: string, y: string)
    requires KeyShaped(p) && !StartsWith(x, p[1..])
    requires |p| - 1 <= |x| && |p| - 1 <= |y| && y[..|p| - 1] == x[..|p| - 1]
    ensures !StartsWith(['#'] + y, p)
  {
    var t := ['#'] + y;
    if |t| >= |p| {
      assert t[..|p|][1..] == y[..|p| - 1];
    }
  }

  /** A `#` that comes before the prefix could have ended rules out a match. */
  lemma {:induction false} HashTooEarly(p: string, a: string, w: string)
    requires KeyShaped(p) && |a| < |p| - 1 && w != [] && w[0] == '#'
    ensures MatchLen(p, ['#'] + (a + w)).None?
  {
    var t := ['#'] + (a + w);
    assert t[|a| + 1] == '#';
    PrefixDiffers(p, t, |a| + 1);
  }

  /** Where the first pass copied a `#` without matching, the second pass finds no
      match either. */
  lemma {:induction false} CopiedHashNoMatch(p: string, x: string, rep: string)
    requires KeyShaped(p) && MatchLen(p, ['#'] + x).None?
    requires rep != [] && rep[0] == '#'
    ensures MatchLen(p, ['#'] + Rewrite(p, x, rep)).None?
  {
    var p1 := p[1..];
    if StartsWith(x, p1) {
      var z := x[|p1|..];
      HashThenRest(p);
      assert x == p1 + z;
      assert ['#'] + x == p + z;
      PrefixCopiedNoMatch(p, z, rep);
    } else {
      NotPrefixNoMatch(p, x, rep);
    }
  }

  lemma {:induction false} HashThenRest(p: string)
    requires KeyShaped(p)
    ensures p == ['#'] + p[1..] && '#' !in p[1..]
  {
  }

  /** A prefix the first pass copied without matching does not match on the second. */
  lemma {:induction false} PrefixCopiedNoMatch(p: string, z: string, rep: string)
    requires KeyShaped(p) && MatchLen(p, p + z).None?
    requires rep != [] && rep[0] == '#'
    ensures MatchLen(p, ['#'] + Rewrite(p, p[1..] + z, rep)).None?
  {
    var p1 := p[1..];
    HashThenRest(p);
    NoHashCopied(p, p1, z, rep);
    var w := Rewrite(p, z, rep);
    assert ['#'] + (p1 + w) == p + w;
    PrefixThenNoMatch(p, z, rep);
  }

  /** A replacement that the pattern matches exactly, whatever follows it. */
  ghost predicate SelfMatching(p: string, rep: string)
  {
    rep != [] && rep[0] == '#' && forall y :: MatchLen(p, rep + y) == Some(|rep|)
  }

  /** A rewritten text is rewritten to itself when the replacement matches itself. */
  lemma {:induction false} Fixed(p: string, t: string, rep: string)
    requires KeyShaped(p) && SelfMatching(p, rep)
    ensures Rewrite(p, Rewrite(p, t, rep), rep) == Rewrite(p, t, rep)
    decreases |t|
  {
    if t != [] {
      match MatchLen(p, t)
      case Some(n) =>
        var y := Rewrite(p, t[n..], rep);
        Fixed(p, t[n..], rep);
        assert MatchLen(p, rep + y) == Some(|rep|);
        assert (rep + y)[|rep|..] == y;
      case None =>
        var y := Rewrite(p, t[1..], rep);
        Fixed(p, t[1..], rep);
        var o := [t[0]] + y;
        if t[0] == '#' {
          assert t == ['#'] + t[1..];
          CopiedHashNoMatch(p, t[1..], rep);
        } else {
          NotHashNoMatch(p, o);
        }
        assert o[1..] == y;
    }
  }

  // ---------------------------------------------------------------------------
  // What the proxy's rewrite promises

  /** A playlist without `#EXT-X-KEY:METHOD=AES-128,URI="` comes back unchanged. */
  lemma {:induction false} NoKeyLineUnchanged(playlist: string, entityType: string, entityId: string)
    requires NoBackslash(entityType) && NoBackslash(entityId)
    requires !Contains(playlist, KeyPrefix)
    ensures RewritePlaylist(playlist, entityType, entityId) == playlist
  {
    NoPrefixUnchanged(KeyPrefix, playlist, Replacement(entityType, entityId));
  }

  /** No match spans a line break, so a playlist is rewritten one line at a time. */
  lemma {:induction false} RewriteByLine(l: string, r: string, entityType: string, entityId: string)
    requires NoBackslash(entityType) && NoBackslash(entityId)
    requires '\n' !in l
    ensures RewritePlaylist(l + "\n" + r, entityType, entityId)
         == RewritePlaylist(l, entityType, entityId) + "\n" + RewritePlaylist(r, entityType, entityId)
  {
    KeyPrefixShaped();
    ByLine(KeyPrefix, l, r, Replacement(entityType, entityId));
  }

  /** A line without the pattern's prefix, such as an `EXT-X-KEY` directive with
      another method or another attribute order, is kept as it is. */
  lemma {:induction false} LineWithoutKeyKept(l: string, r: string, entityType: string, entityId: string)
    requires NoBackslash(entityType) && NoBackslash(entityId)
    requires '\n' !in l && !Contains(l, KeyPrefix)
    ensures RewritePlaylist(l + "\n" + r, entityType, entityId) == l + "\n" + RewritePlaylist(r, entityType, entityId)
  {
    RewriteByLine(l, r, entityType, entityId);
    NoKeyLineUnchanged(l, entityType, entityId);
  }

  /** Text outside the matched span is preserved: in a text `pre` without the prefix,
      then a key directive whose quoted URI `v` is non-empty, then anything, only the
      directive changes, and it now points at the entity's local key path. */
  lemma {:induction false} RewriteKeyLine(pre: string, v: string, post: string, entityType: string, entityId: string)
    requires NoBackslash(entityType) && NoBackslash(entityId)
    requires !Contains(pre, KeyPrefix) && v != [] && '\n' !in v && '"' !in v[1..]
    ensures RewritePlaylist(pre + KeyPrefix + v + "\"" + post, entityType, entityId)
         == pre + KeyPrefix + KeyPath(entityType, entityId) + "\"" + RewritePlaylist(post, entityType, entityId)
  {
    KeyPrefixShaped();
    KeyLine(KeyPrefix, pre, v, post, Replacement(entityType, entityId));
  }

  lemma {:induction false} ReplacementSelfMatching(entityType: string, entityId: string)
    requires '"' !in entityType && '\n' !in entityType && '"' !in entityId && '\n' !in entityId
    ensures SelfMatching(KeyPrefix, Replacement(entityType, entityId))
  {
    var v := KeyPath(entityType, entityId);
    var rep := Replacement(entityType, entityId);
    assert v[1..] == "stream/" + entityType + "/" + entityId + "/key";
    forall y
      ensures MatchLen(KeyPrefix, rep + y) == Some(|rep|)
    {
      assert rep + y == KeyPrefix + v + "\"" + y;
      MatchOf(KeyPrefix, v, y);
    }
  }

  /** The rewrite is idempotent for entity names without quotes or line breaks. */
  lemma {:induction false} RewriteIdempotent(playlist: string, entityType: string, entityId: string)
    requires NoBackslash(entityType) && NoBackslash(entityId)
    requires '"' !in entityType && '\n' !in entityType && '"' !in entityId && '\n' !in entityId
    ensures RewritePlaylist(RewritePlaylist(playlist, entityType, entityId), entityType, entityId)
         == RewritePlaylist(playlist, entityType, entityId)
  {
    KeyPrefixShaped();
    ReplacementSelfMatching(entityType, entityId);
    Fixed(KeyPrefix, playlist, Replacement(entityType, entityId));
  }

  // ---------------------------------------------------------------------------
  // Routes

  /** A route variable `{name}` matches one or more characters other than `/`, `{`, `}`. */
  predicate Component(s: string)
  {
    s != [] && '/' !in s && '{' !in s && '}' !in s
  }

  /** `{segment_file:.+\.aac}`: at least one character that is not a line break, then `.aac`. */
  predicate SegmentFile(s: string)
  {
    |s| > 4 && s[|s| - 4..] == ".aac" && '\n' !in s[..|s| - 4]
  }

  datatype Route =
    | PlaylistRoute(entityType: string, entityId: string)
    | KeyRoute(entityType: string, entityId: string)
    | SegmentRoute(entityType: string, entityId: string, segmentFile: string)

  /** `/stream/{entity_type}/{entity_id}/` followed by the rest of a route's path. */
  function StreamPath(entityType: string, entityId: string, tail: string): string
  {
    "/stream/" + entityType + "/" + entityId + "/" + tail
  }

  /** The text before the first `/`, and the text after it. */
  function SplitSlash(s: string): (r: Option<(string, string)>)
    ensures r.Some? ==> '/' !in r.value.0 && s == r.value.0 + "/" + r.value.1
    ensures r.None? ==> '/' !in s
  {
    var i := IndexOf(s, '/');
    if i.None? then None
    else
      assert s == s[..i.value] + "/" + s[i.value + 1..];
      Some((s[..i.value], s[i.value + 1..]))
  }

  lemma {:induction false} SplitSlashOf(a: string, b: string)
    requires '/' !in a
    ensures SplitSlash(a + "/" + b) == Some((a, b))
  {
    var s := a + "/" + b;
    IndexOfFirst(a, '/', b);
    assert s[..|a|] == a && s[|a| + 1..] == b;
  }

  /** `/stream/{a}/{b}/{c}` split at its first two slashes after the route's prefix. */
  function StreamParts(path: string): (r: Option<(string, string, string)>)
    ensures r.Some? ==> '/' !in r.value.0 && '/' !in r.value.1 && path == StreamPath(r.value.0, r.value.1, r.value.2)
  {
    if !StartsWith(path, "/stream/") then None else
    var first := SplitSlash(path[8..]);
    if first.None? then None else
    var second := SplitSlash(first.value.1);
    if second.None? then None else
    JoinParts(path, first.value.0, first.value.1, second.value.0, second.value.1);
    Some((first.value.0, second.value.0, second.value.1))
  }

  lemma {:induction false} JoinParts(path: string, a: string, rest: string, b: string, c: string)
    requires StartsWith(path, "/stream/") && path[8..] == a + "/" + rest && rest == b + "/" + c
    ensures path == StreamPath(a, b, c)
  {
    assert path == path[..8] + path[8..];
  }

  /** The last part of a route's path. */
  function Tail(r: Route): string
  {
    match r
    case PlaylistRoute(_, _) => "playlist.m3u8"
    case KeyRoute(_, _) => "key"
    case SegmentRoute(_, _, segmentFile) => segmentFile
  }

  /** The stream route a path is dispatched to. Routes are tried in the order they are
      registered (playlist, key, segment) and each must match the whole path. */
  function Resolve(path: string): (r: Option<Route>)
    ensures r.Some? ==>
      && Component(r.value.entityType) && Component(r.value.entityId)
      && path == StreamPath(r.value.entityType, r.value.entityId, Tail(r.value))
      && (r.value.SegmentRoute? ==> SegmentFile(r.value.segmentFile))
  {
    match StreamParts(path)
    case None => None
    case Some((entityType, entityId, tail)) =>
      if !Component(entityType) || !Component(entityId) then None
      else if tail == "playlist.m3u8" then Some(PlaylistRoute(entityType, entityId))
      else if tail == "key" then Some(KeyRoute(entityType, entityId))
      else if SegmentFile(tail) then Some(SegmentRoute(entityType, entityId, tail))
      else None
  }

  lemma {:induction false} ResolveParts(entityType: string, entityId: string, tail: string)
    requires Component(entityType) && Component(entityId)
    ensures Resolve(StreamPath(entityType, entityId, tail)) ==
      if tail == "playlist.m3u8" then Some(PlaylistRoute(entityType, entityId))
      else if tail == "key" then Some(KeyRoute(entityType, entityId))
      else if SegmentFile(tail) then Some(SegmentRoute(entityType, entityId, tail))
      else None
  {
    var path := StreamPath(entityType, entityId, tail);
    assert path == "/stream/" + (entityType + "/" + (entityId + "/" + tail));
    assert path[8..] == entityType + "/" + (entityId + "/" + tail);
    SplitSlashOf(entityType, entityId + "/" + tail);
    SplitSlashOf(entityId, tail);
  }

  /** The key URI the rewrite writes is a path the key route matches, giving back the
      entity named by the playlist route that served the playlist. */
  lemma {:induction false} RewrittenUriHitsKeyRoute(path: string)
    requires Resolve(path).Some? && Resolve(path).value.PlaylistRoute?
    ensures var r := Resolve(path).value;
      Resolve(KeyPath(r.entityType, r.entityId)) == Some(KeyRoute(r.entityType, r.entityId))
  {
    var r := Resolve(path).value;
    KeyPathRoundTrip(r.entityType, r.entityId);
  }

  /** The key path of an entity whose names are route components resolves back to it. */
  lemma {:induction false} KeyPathRoundTrip(entityType: string, entityId: string)
    requires Component(entityType) && Component(entityId)
    ensures Resolve(KeyPath(entityType, entityId)) == Some(KeyRoute(entityType, entityId))
  {
    assert KeyPath(entityType, entityId) == StreamPath(entityType, entityId, "key");
    ResolveParts(entityType, entityId, "key");
  }

  lemma {:induction false} SegmentPathRoundTrip(entityType: string, entityId: string, segmentFile: string)
    requires Component(entityType) && Component(entityId) && SegmentFile(segmentFile)
    ensures Resolve(StreamPath(entityType, entityId, segmentFile)) == Some(SegmentRoute(entityType, entityId, segmentFile))
  {
    ResolveParts(entityType, entityId, segmentFile);
  }

  lemma {:induction false} PlaylistPathRoundTrip(entityType: string, entityId: string)
    requires Component(entityType) && Component(entityId)
    ensures Resolve(StreamPath(entityType, entityId, "playlist.m3u8")) == Some(PlaylistRoute(entityType, entityId))
  {
    ResolveParts(entityType, entityId, "playlist.m3u8");
  }
}
