/** What `SxmStream` (aiosxm/stream.py) computes: the tune request, the scan of the
    bitrate manifest, the URL surgery of `base_url` and `get_segment`, and the choice
    of the key id. `Initialize` is the whole of `initialize` as a function of the
    client's state and the handle's; the class `Client.SxmStream` runs it with a loop
    and is proved to agree with it. */
module Stream {
  import opened Common
  import opened Http
  import opened Auth

  /** The bitrates `initialize` probes, in the order it probes them. */
  const Bitrates := ["256k", "96k", "64k", "32k"]

  const BitrateSet := set b | b in Bitrates

  const TuneSourceUrl := "https://api.edge-gateway.siriusxm.com/playback/play/v1/tuneSource"

  const KeyUrlPrefix := "https://api.edge-gateway.siriusxm.com/playback/key/v1/"

  /** The key id used for every live channel. */
  const ZeroKeyId := "00000000-0000-0000-0000-000000000000"

  const ChannelLinear := "channel-linear"

  /** The fields of one `SxmStream` that change: whether it is initialized, the stored
      tune response and the table from bitrate to playlist URL (`None` for a bitrate
      the manifest does not offer). */
  datatype Handle = Handle(initialized: bool, tuneSource: Option<Body>, byBitrate: map<string, Option<string>>)

  /** A handle as the constructor leaves it. */
  const Fresh := Handle(false, None, map[])

  // ---------------------------------------------------------------------------
  // Splitting and joining

  /** `s.split(c)`: the pieces between occurrences of `c`; always at least one. */
  function SplitOn(s: string, c: char): (parts: seq<string>)
    ensures |parts| >= 1 && forall i | 0 <= i < |parts| :: c !in parts[i]
    decreases |s|
  {
    match IndexOf(s, c)
    case None => [s]
    case Some(i) => [s[..i]] + SplitOn(s[i + 1..], c)
  }

  /** `c.join(parts)`. */
  function Join(parts: seq<string>, c: char): string
  {
    if parts == [] then []
    else if |parts| == 1 then parts[0]
    else parts[0] + [c] + Join(parts[1..], c)
  }

  /** Joining the pieces gives the text back. */
  lemma {:induction false} JoinSplit(s: string, c: char)
    ensures Join(SplitOn(s, c), c) == s
    decreases |s|
  {
    match IndexOf(s, c)
    case None =>
      assert SplitOn(s, c) == [s];
    case Some(i) =>
      var rest := SplitOn(s[i + 1..], c);
      var parts := [s[..i]] + rest;
      assert SplitOn(s, c) == parts;
      assert parts[1..] == rest && |parts| > 1;
      JoinSplit(s[i + 1..], c);
      assert Join(parts, c) == s[..i] + [c] + s[i + 1..];
      assert s == s[..i] + [c] + s[i + 1..];
  }

  /** Splitting a join of pieces without `c` gives the pieces back. */
  lemma {:induction false} SplitJoin(parts: seq<string>, c: char)
    requires parts != [] && forall i | 0 <= i < |parts| :: c !in parts[i]
    ensures SplitOn(Join(parts, c), c) == parts
    decreases |parts|
  {
    if |parts| > 1 {
      var rest := Join(parts[1..], c);
      var s := parts[0] + [c] + rest;
      IndexOfFirst(parts[0], c, rest);
      assert s[..|parts[0]|] == parts[0] && s[|parts[0]| + 1..] == rest;
      SplitJoin(parts[1..], c);
    }
  }

  /** Splitting at one occurrence first: the pieces of each side, in order. */
  lemma {:induction false} SplitAround(a: string, c: char, b: string)
    ensures SplitOn(a + [c] + b, c) == SplitOn(a, c) + SplitOn(b, c)
  {
    var pa := SplitOn(a, c);
    var pb := SplitOn(b, c);
    JoinSplit(a, c);
    JoinSplit(b, c);
    JoinAppend(pa, pb, c);
    SplitJoin(pa + pb, c);
  }

  lemma {:induction false} JoinAppend(pa: seq<string>, pb: seq<string>, c: char)
    requires pa != [] && pb != []
    ensures Join(pa + pb, c) == Join(pa, c) + [c] + Join(pb, c)
    decreases |pa|
  {
    if |pa| > 1 {
      assert (pa + pb)[1..] == pa[1..] + pb;
      JoinAppend(pa[1..], pb, c);
    } else {
      assert (pa + pb)[1..] == pb;
    }
  }

  // ---------------------------------------------------------------------------
  // Python's str.strip()

  /** The characters Python's `str.isspace` accepts: tab to carriage return, the four
      information separators and the space, next line, no-break space, and the Unicode
      space separators and line and paragraph separators. */
  predicate IsSpace(ch: char)
  {
    || ('\t' <= ch <= '\r') || ('\U{1C}' <= ch <= ' ') || ch == '\U{85}' || ch == '\U{A0}'
    || ch == '\U{1680}' || ('\U{2000}' <= ch <= '\U{200A}') || ch == '\U{2028}' || ch == '\U{2029}'
    || ch == '\U{202F}' || ch == '\U{205F}' || ch == '\U{3000}'
  }

  predicate AllSpace(s: string)
    decreases |s|
  {
    s == [] || (IsSpace(s[0]) && AllSpace(s[1..]))
  }

  lemma {:induction false} AllSpaceAppend(a: string, b: string)
    ensures AllSpace(a + b) <==> AllSpace(a) && AllSpace(b)
    decreases |a|
  {
    if a == [] {
      assert a + b == b;
    } else {
      assert (a + b)[0] == a[0] && (a + b)[1..] == a[1..] + b;
      AllSpaceAppend(a[1..], b);
    }
  }

  /** Neither end is whitespace. */
  predicate Trimmed(s: string) { s == [] || (!IsSpace(s[0]) && !IsSpace(s[|s| - 1])) }

  function StripLeft(s: string): (r: string)
    ensures |r| <= |s| && r == s[|s| - |r|..] && AllSpace(s[..|s| - |r|])
    ensures r != [] ==> !IsSpace(r[0])
    decreases |s|
  {
    if s != [] && IsSpace(s[0]) then
      var r := StripLeft(s[1..]);
      var cut := s[..|s| - |r|];
      assert cut[0] == s[0] && cut[1..] == s[1..][..|s[1..]| - |r|];
      r
    else s
  }

  function StripRight(s: string): (r: string)
    ensures |r| <= |s| && r == s[..|r|] && AllSpace(s[|r|..])
    ensures r != [] ==> !IsSpace(r[|r| - 1])
    decreases |s|
  {
    if s != [] && IsSpace(s[|s| - 1]) then
      var r := StripRight(s[..|s| - 1]);
      var last := [s[|s| - 1]];
      assert s[|r|..] == s[..|s| - 1][|r|..] + last;
      assert last[1..] == [];
      AllSpaceAppend(s[..|s| - 1][|r|..], last);
      r
    else
      assert s[|s|..] == [];
      s
  }

  /** `s.strip()`: `s` without its leading and trailing whitespace. */
  function Strip(s: string): (r: string)
    ensures Trimmed(r) && |r| <= |s|
  {
    var l := StripLeft(s);
    var r := StripRight(l);
    assert r != [] ==> r[0] == l[0];
    r
  }

  /** `r` is `s[i..j]`, and what lies outside that slice is whitespace. */
  predicate CutOut(s: string, r: string, i: nat, j: nat)
  {
    i <= j <= |s| && r == s[i..j] && AllSpace(s[..i]) && AllSpace(s[j..])
  }

  /** A whitespace prefix cut from `s`, then a whitespace suffix cut from the rest. */
  lemma {:induction false} CutTwice(s: string, l: string, r: string, i: nat)
    requires i <= |s| && l == s[i..] && AllSpace(s[..i])
    requires |r| <= |l| && r == l[..|r|] && AllSpace(l[|r|..])
    ensures CutOut(s, r, i, i + |r|)
  {
    var j := i + |r|;
    assert s[i..j] == r by {
      forall k | 0 <= k < |r| ensures s[i..j][k] == r[k] {
        assert s[i..j][k] == s[i + k] == l[k];
      }
    }
    assert s[j..] == l[|r|..] by {
      forall k | 0 <= k < |s| - j ensures s[j..][k] == l[|r|..][k] {
        assert s[j..][k] == s[j + k] == l[|r| + k];
      }
    }
  }

  /** What `strip` cuts off is whitespace, from each end. */
  lemma {:induction false} StripCutsSpaces(s: string)
    ensures exists i: nat, j: nat :: CutOut(s, Strip(s), i, j)
  {
    var l := StripLeft(s);
    var r := StripRight(l);
    CutTwice(s, l, r, |s| - |l|);
    assert Strip(s) == r;
  }

  lemma {:induction false} StripLeftSpaces(a: string, t: string)
    requires AllSpace(a) && (t == [] || !IsSpace(t[0]))
    ensures StripLeft(a + t) == t
    decreases |a|
  {
    if a == [] {
      assert a + t == t;
    } else {
      var s := a + t;
      assert s[0] == a[0] && IsSpace(s[0]);
      assert s[1..] == a[1..] + t;
      StripLeftSpaces(a[1..], t);
      StripLeftStep(s);
    }
  }

  lemma {:induction false} StripLeftStep(s: string)
    requires s != [] && IsSpace(s[0])
    ensures StripLeft(s) == StripLeft(s[1..])
  {
  }

  lemma {:induction false} StripRightSpaces(t: string, z: string)
    requires AllSpace(z) && (t == [] || !IsSpace(t[|t| - 1]))
    ensures StripRight(t + z) == t
    decreases |z|
  {
    if z == [] {
      assert t + z == t;
    } else {
      var s := t + z;
      var init := z[..|z| - 1];
      SpaceAtEnd(z);
      assert s[|s| - 1] == z[|z| - 1];
      assert s[..|s| - 1] == t + init;
      StripRightStep(s);
      StripRightSpaces(t, init);
    }
  }

  lemma {:induction false} SpaceAtEnd(z: string)
    requires z != [] && AllSpace(z)
    ensures IsSpace(z[|z| - 1]) && AllSpace(z[..|z| - 1])
  {
    var last := [z[|z| - 1]];
    assert z == z[..|z| - 1] + last;
    AllSpaceAppend(z[..|z| - 1], last);
  }

  lemma {:induction false} StripRightStep(s: string)
    requires s != [] && IsSpace(s[|s| - 1])
    ensures StripRight(s) == StripRight(s[..|s| - 1])
  {
  }

  /** Whitespace around a trimmed text is exactly what `strip` removes. */
  lemma {:induction false} StripPadding(a: string, m: string, z: string)
    requires AllSpace(a) && Trimmed(m) && AllSpace(z)
    ensures Strip(a + m + z) == m
  {
    if m == [] {
      assert a + m + z == (a + z) + [];
      AllSpaceAppend(a, z);
      StripLeftSpaces(a + z, []);
    } else {
      assert a + m + z == a + (m + z);
      StripLeftSpaces(a, m + z);
      StripRightSpaces(m, z);
    }
  }

  lemma {:induction false} StripIdempotent(s: string)
    ensures Strip(Strip(s)) == Strip(s)
  {
    var r := Strip(s);
    assert [] + r + [] == r;
    StripPadding([], r, []);
  }

  // ---------------------------------------------------------------------------
  // The manifest scan

  /** The text `re.search(rf"^.*_{bitrate}_full_v3\.m3u8.*$", ..., re.MULTILINE)` looks for. */
  function Marker(bitrate: string): string
  {
    "_" + bitrate + "_full_v3.m3u8"
  }

  /** The lines `^` and `$` delimit under re.MULTILINE; `.` matches anything but a line break. */
  function Lines(text: string): (lines: seq<string>)
    ensures lines != [] && Join(lines, '\n') == text
    ensures forall i | 0 <= i < |lines| :: '\n' !in lines[i]
  {
    JoinSplit(text, '\n');
    SplitOn(text, '\n')
  }

  /** The index of the first line containing `m`. Under re.MULTILINE the pattern
      `^.*m.*$` matches at a line start exactly when that line contains `m`, and the
      match is then the whole line; the search returns the earliest such match. */
  function FirstLine(lines: seq<string>, m: string): (r: Option<nat>)
    ensures r.Some? ==> r.value < |lines| && Contains(lines[r.value], m)
    ensures r.Some? ==> forall j | 0 <= j < r.value :: !Contains(lines[j], m)
    ensures r.None? ==> forall j | 0 <= j < |lines| :: !Contains(lines[j], m)
    decreases |lines|
  {
    if lines == [] then None
    else if Contains(lines[0], m) then Some(0)
    else
      var r := FirstLine(lines[1..], m);
      if r.Some? then Some(r.value + 1) else None
  }

  /** Line `i` is the first of `lines` containing `m`. */
  predicate FirstHit(lines: seq<string>, m: string, i: nat)
  {
    i < |lines| && Contains(lines[i], m) && forall j | 0 <= j < i :: !Contains(lines[j], m)
  }

  /** The table entry `initialize` writes for one bitrate. */

  function Probe(base: string, lines: seq<string>, bitrate: string): (r: Option<string>)
    ensures r.Some? <==> exists i | 0 <= i < |lines| :: Contains(lines[i], Marker(bitrate))
    ensures r.Some? ==> exists i: nat :: FirstHit(lines, Marker(bitrate), i) && r.value == base + "/" + Strip(lines[i])
  {
    var m := Marker(bitrate);
    var f := FirstLine(lines, m);
    if f.None? then
      None
    else
      var i := f.value;
      var r := base + "/" + Strip(lines[i]);
      assert FirstHit(lines, m, i);
      Some(r)
  }

  /** The entry computed from the first matching line, as `initialize` computes it. */
  lemma {:induction false} ProbeFromLine(base: string, lines: seq<string>, bitrate: string, line: Option<nat>)
    requires line == FirstLine(lines, Marker(bitrate))
    ensures line.Some? ==> line.value < |lines| && Probe(base, lines, bitrate) == Some(base + "/" + Strip(lines[line.value]))
    ensures line.None? ==> Probe(base, lines, bitrate) == None
  {
  }

  /** The table after probing the bitrates `bs` in order. */
  function Fill(m: map<string, Option<string>>, base: string, lines: seq<string>, bs: seq<string>): (r: map<string, Option<string>>)
    ensures r.Keys == m.Keys + set b | b in bs
    ensures forall b | b in bs :: r[b] == Probe(base, lines, b)
    ensures forall k | k in m && k !in bs :: r[k] == m[k]
    decreases |bs|
  {
    if bs == [] then m
    else
      var b := bs[|bs| - 1];
      Fill(m, base, lines, bs[..|bs| - 1])[b := Probe(base, lines, b)]
  }

  /** One more bitrate probed: its entry is set and the rest is the shorter fill. */
  lemma {:induction false} FillStep(m: map<string, Option<string>>, base: string, lines: seq<string>, bs: seq<string>, i: nat)
    requires i < |bs|
    ensures Fill(m, base, lines, bs[..i + 1]) == Fill(m, base, lines, bs[..i])[bs[i] := Probe(base, lines, bs[i])]
  {
    assert bs[..i + 1][..i] == bs[..i];
  }

  /** A rerun overwrites every entry: when the table holds only bitrates, what it held
      before is forgotten. */
  lemma {:induction false} RerunOverwrites(m: map<string, Option<string>>, base: string, lines: seq<string>)
    requires m.Keys <= BitrateSet
    ensures Fill(m, base, lines, Bitrates) == Fill(map[], base, lines, Bitrates)
  {
    RefillForgets(m, base, lines, Bitrates);
  }

  /** The same for any list of bitrates that covers the table's keys. */
  lemma {:induction false} RefillForgets(m: map<string, Option<string>>, base: string, lines: seq<string>, bs: seq<string>)
    requires forall k | k in m :: k in bs
    ensures Fill(m, base, lines, bs) == Fill(map[], base, lines, bs)
  {
    var x := Fill(m, base, lines, bs);
    var y := Fill(map[], base, lines, bs);
    assert x.Keys == y.Keys;
    forall k | k in x
      ensures x[k] == y[k]
    {
      assert k in bs;
    }
  }

  /** In a manifest whose first line contains the marker, that line gives the entry. */
  lemma {:induction false} FirstMatchingLineWins(base: string, l: string, rest: string, bitrate: string)
    requires '\n' !in l && Contains(l, Marker(bitrate))
    ensures Probe(base, Lines(l + "\n" + rest), bitrate) == Some(base + "/" + Strip(l))
  {
    SplitAround(l, '\n', rest);
    assert l + "\n" + rest == l + ['\n'] + rest;
    assert IndexOf(l, '\n').None?;
  }

  /** A first line without the marker is passed over. */
  lemma {:induction false} OtherLineSkipped(base: string, l: string, rest: string, bitrate: string)
    requires '\n' !in l && !Contains(l, Marker(bitrate))
    ensures Probe(base, Lines(l + "\n" + rest), bitrate) == Probe(base, Lines(rest), bitrate)
  {
    SplitAround(l, '\n', rest);
    assert l + "\n" + rest == l + ['\n'] + rest;
    assert IndexOf(l, '\n').None?;
    var lines := Lines(l + "\n" + rest);
    assert lines == [l] + Lines(rest);
    assert lines[1..] == Lines(rest);
    var m := Marker(bitrate);
    var f := FirstLine(Lines(rest), m);
    assert FirstLine(lines, m) == if f.Some? then Some(f.value + 1) else None;
    ProbeFromLine(base, lines, bitrate, FirstLine(lines, m));
    ProbeFromLine(base, Lines(rest), bitrate, f);
  }

  // ---------------------------------------------------------------------------
  // Reading the tune response

  /** `tune["streams"][0]`. */
  function FirstStream(tune: Option<Body>): (r: Result<Json, Error>)
    ensures r.Success? ==> tune.Some? && tune.value.JsonBody?
  {
    var streams :- BodyKey(tune, "streams");
    First(streams)
  }

  /** `tune["streams"][0]["urls"][0]["url"]`. */
  function ManifestEntry(tune: Option<Body>): (r: Result<Json, Error>)
    ensures r.Success? ==> FirstStream(tune).Success?
  {
    var stream :- FirstStream(tune);
    var urls :- Key(stream, "urls");
    var first :- First(urls);
    Key(first, "url")
  }

  /** The `streams_by_bitrate_url` property. */
  function ManifestUrl(tune: Option<Body>): (r: Result<string, Error>)
    ensures r.Success? <==> ManifestEntry(tune).Success? && ManifestEntry(tune).value.JStr?
  {
    var entry :- ManifestEntry(tune);
    Str(entry)
  }

  /** The `stream_id` property. */
  function StreamId(tune: Option<Body>): (r: Result<string, Error>)
    ensures r.Success? ==> FirstStream(tune).Success? && Key(FirstStream(tune).value, "id") == Success(JStr(r.value))
  {
    var stream :- FirstStream(tune);
    var id :- Key(stream, "id");
    Str(id)
  }

  /** The index of the last occurrence of `c`. */
  function LastIndexOf(s: string, c: char): (i: Option<nat>)
    ensures i.Some? ==> i.value < |s| && s[i.value] == c && c !in s[i.value + 1..]
    ensures i.None? ==> c !in s
  {
    if s == [] then None
    else if s[|s| - 1] == c then Some(|s| - 1)
    else
      var i := LastIndexOf(s[..|s| - 1], c);
      if i.Some? then
        assert s[i.value + 1..] == s[..|s| - 1][i.value + 1..] + [s[|s| - 1]];
        Some(i.value)
      else None
  }

  /** `url.rsplit("/", 1)[0]`: the URL up to, and not including, its last `/`, or the
      whole URL when it has none. */
  function BaseUrl(url: string): (r: string)
    ensures '/' !in url ==> r == url
    ensures '/' in url ==> |r| < |url| && url[..|r|] == r && url[|r|] == '/' && '/' !in url[|r| + 1..]
  {
    match LastIndexOf(url, '/')
    case None => url
    case Some(i) => url[..i]
  }

  /** An occurrence of `c` with none after it is the one `LastIndexOf` finds. */
  lemma {:induction false} LastIndexOfUnique(s: string, c: char, i: nat)
    requires i < |s| && s[i] == c && c !in s[i + 1..]
    ensures LastIndexOf(s, c) == Some(i)
    decreases |s|
  {
    if i < |s| - 1 {
      assert s[i + 1..][|s| - i - 2] == s[|s| - 1];
      assert s[..|s| - 1][i + 1..] == s[i + 1..|s| - 1];
      LastIndexOfUnique(s[..|s| - 1], c, i);
    }
  }

  /** Removing the last component of a path gives back its directory. */
  lemma {:induction false} BaseUrlOfChild(dir: string, name: string)
    requires '/' !in name
    ensures BaseUrl(dir + "/" + name) == dir
  {
    var s := dir + "/" + name;
    assert s[|dir| + 1..] == name;
    LastIndexOfUnique(s, '/', |dir|);
    assert s[..|dir|] == dir;
  }

  /** The `base_url` property: `rsplit` needs a string. */
  function BaseUrlOf(tune: Option<Body>): (r: Result<string, Error>)
    ensures r.Success? <==> ManifestUrl(tune).Success?
    ensures r.Success? ==> r.value == BaseUrl(ManifestUrl(tune).value)
  {
    var entry :- ManifestEntry(tune);
    if entry.JStr? then Success(BaseUrl(entry.s)) else Failure(RuntimeFault(AttributeError, None))
  }

  // ---------------------------------------------------------------------------
  // initialize

  function TunePayload(entityType: string, entityId: string): Payload
  {
    JsonPayload(JObj(map[
      "id" := JStr(entityId),
      "type" := JStr(entityType),
      "hlsVersion" := JStr("V3"),
      "manifestVariant" := JStr("FULL"),
      "mtcVersion" := JStr("V2")]))
  }

  function TuneCall(entityType: string, entityId: string): Call
  {
    Call("POST", Some(TuneSourceUrl), None, TunePayload(entityType, entityId))
  }

  function ManifestCall(url: string): Call
  {
    Call("GET", Some(url), None, NoPayload)
  }

  /** `initialize`: request the tune source and store it, fetch the manifest it names,
      probe each bitrate, and only then mark the stream initialized. */
  function Initialize(env: Env, cs: ClientState, entityType: string, entityId: string, h: Handle): (res: (Outcome, ClientState, Handle))
    ensures cs.sent <= res.1.sent
  {
    var (r1, cs1) := Request(env, cs, TuneCall(entityType, entityId));
    if r1.Failure? then (Fail(r1.error), cs1, h) else
    var h1 := h.(tuneSource := Some(r1.value));
    var url := ManifestUrl(h1.tuneSource);
    if url.Failure? then (Fail(url.error), cs1, h1) else
    var (r2, cs2) := Request(env, cs1, ManifestCall(url.value));
    if r2.Failure? then (Fail(r2.error), cs2, h1) else
    var text := AsText(r2.value);
    if text.Failure? then (Fail(text.error), cs2, h1) else
    (Pass, cs2, h1.(byBitrate := Fill(h1.byBitrate, BaseUrl(url.value), Lines(text.value), Bitrates), initialized := true))
  }

  /** The stream is marked initialized once a call succeeds and never unmarked; a
      failing call leaves the table as it was. A successful call fetched the manifest
      named by the stored tune response as its last request and filled every bitrate
      from the reply to it. */
  lemma {:induction false} InitializeResult(env: Env, cs: ClientState, entityType: string, entityId: string, h: Handle,
                         o: Outcome, t: ClientState, h2: Handle)
    requires (o, t, h2) == Initialize(env, cs, entityType, entityId, h)
    ensures
      && h2.initialized == (h.initialized || o.Pass?)
      && (o.Fail? ==> h2.byBitrate == h.byBitrate)
      && (o.Pass? ==>
        && h2.byBitrate.Keys == h.byBitrate.Keys + BitrateSet
        && (h.byBitrate.Keys <= BitrateSet ==> h2.byBitrate.Keys == BitrateSet)
        && ManifestUrl(h2.tuneSource).Success?
        && |cs.sent| < |t.sent|
        && t.sent[|t.sent| - 1].url == ManifestUrl(h2.tuneSource).value
        && var reply := ReplyTo(env, t.sent, |t.sent| - 1);
        && reply.Success? && AsText(reply.value).Success?
        && forall b | b in Bitrates ::
             h2.byBitrate[b] == Probe(BaseUrl(ManifestUrl(h2.tuneSource).value), Lines(AsText(reply.value).value), b))
  {
    var (r1, cs1) := Request(env, cs, TuneCall(entityType, entityId));
    if r1.Failure? {
      assert Initialize(env, cs, entityType, entityId, h) == (Fail(r1.error), cs1, h);
    } else {
      var h1 := h.(tuneSource := Some(r1.value));
      var url := ManifestUrl(h1.tuneSource);
      if url.Failure? {
        assert Initialize(env, cs, entityType, entityId, h) == (Fail(url.error), cs1, h1);
      } else {
        var (r2, cs2) := Request(env, cs1, ManifestCall(url.value));
        if r2.Failure? {
          assert Initialize(env, cs, entityType, entityId, h) == (Fail(r2.error), cs2, h1);
        } else if AsText(r2.value).Failure? {
          assert Initialize(env, cs, entityType, entityId, h) == (Fail(AsText(r2.value).error), cs2, h1);
        } else {
          InitializePasses(env, cs, entityType, entityId, h);
          assert t == cs2 && h2.tuneSource == h1.tuneSource;
          PassedFacts(env, cs, cs1, url.value, r2, t);
          FilledTable(h.byBitrate, BaseUrl(url.value), Lines(AsText(r2.value).value), h2.byBitrate);
        }
      }
    }
  }

  /** What the successful path leaves behind in the log. */
  lemma {:induction false} PassedFacts(env: Env, cs: ClientState, cs1: ClientState, url: string, r2: Result<Body, Error>, cs2: ClientState)
    requires cs.sent <= cs1.sent && (r2, cs2) == Request(env, cs1, ManifestCall(url)) && r2.Success?
    ensures |cs.sent| < |cs2.sent| && cs2.sent[|cs2.sent| - 1].url == url && ReplyTo(env, cs2.sent, |cs2.sent| - 1) == r2
  {
    RequestAnswersItsOwnCall(env, cs1, ManifestCall(url));
  }

  /** The table after probing every bitrate. */
  lemma {:induction false} FilledTable(m: map<string, Option<string>>, base: string, lines: seq<string>, x: map<string, Option<string>>)
    requires x == Fill(m, base, lines, Bitrates)
    ensures x.Keys == m.Keys + BitrateSet
    ensures m.Keys <= BitrateSet ==> x.Keys == BitrateSet
    ensures forall b | b in Bitrates :: x[b] == Probe(base, lines, b)
  {
  }

  /** The successful path of `initialize`, written out. */
  lemma {:induction false} InitializePasses(env: Env, cs: ClientState, entityType: string, entityId: string, h: Handle)
    requires var (r1, cs1) := Request(env, cs, TuneCall(entityType, entityId));
      && r1.Success? && ManifestUrl(Some(r1.value)).Success?
      && var (r2, cs2) := Request(env, cs1, ManifestCall(ManifestUrl(Some(r1.value)).value));
      && r2.Success? && AsText(r2.value).Success?
    ensures var (r1, cs1) := Request(env, cs, TuneCall(entityType, entityId));
      var url := ManifestUrl(Some(r1.value)).value;
      var (r2, cs2) := Request(env, cs1, ManifestCall(url));
      var h2 := h.(tuneSource := Some(r1.value),
                   byBitrate := Fill(h.byBitrate, BaseUrl(url), Lines(AsText(r2.value).value), Bitrates),
                   initialized := true);
      Initialize(env, cs, entityType, entityId, h) == (Pass, cs2, h2)
  {
  }

  /** The tune response is stored as soon as the tune request succeeds, even when a
      later step fails; when the tune request fails nothing of the handle changes. */
  lemma {:induction false} TuneSourceStoredFirst(env: Env, cs: ClientState, entityType: string, entityId: string, h: Handle)
    ensures var (r1, cs1) := Request(env, cs, TuneCall(entityType, entityId));
      var (o, t, h2) := Initialize(env, cs, entityType, entityId, h);
      && (r1.Failure? ==> o == Fail(r1.error) && t == cs1 && h2 == h)
      && (r1.Success? ==>
        && h2.tuneSource == Some(r1.value)
        && |cs.sent| < |cs1.sent| && cs1.sent <= t.sent
        && var tune := cs1.sent[|cs1.sent| - 1];
        && tune.url == TuneSourceUrl && tune.verb == "POST" && tune.payload == TunePayload(entityType, entityId))
  {
    RequestAnswersItsOwnCall(env, cs, TuneCall(entityType, entityId));
    var (r1, cs1) := Request(env, cs, TuneCall(entityType, entityId));
    if r1.Failure? {
      assert Initialize(env, cs, entityType, entityId, h) == (Fail(r1.error), cs1, h);
    } else {
      InitializeAfterTune(env, cs, entityType, entityId, h);
    }
  }

  /** Everything after a successful tune request keeps the handle's tune response and
      extends the log. */
  lemma {:induction false} InitializeAfterTune(env: Env, cs: ClientState, entityType: string, entityId: string, h: Handle)
    requires Request(env, cs, TuneCall(entityType, entityId)).0.Success?
    ensures var (r1, cs1) := Request(env, cs, TuneCall(entityType, entityId));
      var (o, t, h2) := Initialize(env, cs, entityType, entityId, h);
      h2.tuneSource == Some(r1.value) && cs1.sent <= t.sent
  {
    var (r1, cs1) := Request(env, cs, TuneCall(entityType, entityId));
    var h1 := h.(tuneSource := Some(r1.value));
    var url := ManifestUrl(h1.tuneSource);
    if url.Success? {
      var (r2, cs2) := Request(env, cs1, ManifestCall(url.value));
      assert cs1.sent <= cs2.sent;
    }
  }

  // ---------------------------------------------------------------------------
  // get_playlist, get_segment, get_key

  /** `_streams_by_bitrate.get(bitrate)`: absent and `None` entries read the same. */
  function Stored(h: Handle, bitrate: string): (r: Option<string>)
    ensures r.Some? <==> bitrate in h.byBitrate && h.byBitrate[bitrate].Some?
    ensures r.Some? ==> r.value == h.byBitrate[bitrate].value
  {
    if bitrate in h.byBitrate then h.byBitrate[bitrate] else None
  }

  /** The request `get_playlist` makes: the stored URL as it is, even when there is none. */
  function PlaylistCall(h: Handle, bitrate: string): Call
  {
    Call("GET", Stored(h, bitrate), None, NoPayload)
  }

  /** `get_playlist` fetches exactly the stored URL; without one, nothing is sent for
      it and the call fails with a TypeError (unless a token refresh failed first). */
  lemma {:induction false} PlaylistFetchesStoredUrl(env: Env, cs: ClientState, h: Handle, bitrate: string)
    ensures var (r, t) := Request(env, cs, PlaylistCall(h, bitrate));
      && (r.Success? || r.error.RequestError? ==>
            Stored(h, bitrate).Some? && |cs.sent| < |t.sent| && t.sent[|t.sent| - 1].url == Stored(h, bitrate).value)
      && (Stored(h, bitrate).None? && !Expired(env, cs) ==>
            r == Failure(RuntimeFault(TypeError, None)) && t.sent == cs.sent)
  {
    RequestAnswersItsOwnCall(env, cs, PlaylistCall(h, bitrate));
  }

  /** `parts[-2]`. */
  function SecondToLast(parts: seq<string>): (r: Result<string, Error>)
    ensures |parts| >= 2 <==> r.Success?
    ensures r.Success? ==> r.value == parts[|parts| - 2]
    ensures r.Failure? ==> r.error == RuntimeFault(IndexError, None)
  {
    if |parts| >= 2 then Success(parts[|parts| - 2]) else Failure(RuntimeFault(IndexError, None))
  }

  /** The request `get_segment` makes: the stored URL's second-to-last path component
      (an AttributeError without a stored URL, an IndexError when it has no `/`),
      then the base URL, then the segment file. */
  function SegmentCall(h: Handle, segmentFile: string, bitrate: string): (r: Result<Call, Error>)
    ensures Stored(h, bitrate).None? ==> r == Failure(RuntimeFault(AttributeError, None))
    ensures Stored(h, bitrate).Some? && '/' !in Stored(h, bitrate).value ==> r == Failure(RuntimeFault(IndexError, None))
    ensures r.Success? ==> BaseUrlOf(h.tuneSource).Success?
  {
    var stored := Stored(h, bitrate);
    if stored.None? then Failure(RuntimeFault(AttributeError, None)) else
    var dir :- SecondToLast(SplitOn(stored.value, '/'));
    var base :- BaseUrlOf(h.tuneSource);
    Success(Call("GET", Some(base + "/" + dir + "/" + segmentFile), None, NoPayload))
  }

  /** A segment is fetched from the directory its playlist sits in, below the stream's
      base URL. */
  lemma {:induction false} SegmentBesidePlaylist(h: Handle, segmentFile: string, bitrate: string, prefix: string, dir: string, name: string)
    requires Stored(h, bitrate) == Some(prefix + "/" + dir + "/" + name) && '/' !in dir && '/' !in name
    requires BaseUrlOf(h.tuneSource).Success?
    ensures SegmentCall(h, segmentFile, bitrate)
         == Success(Call("GET", Some(BaseUrlOf(h.tuneSource).value + "/" + dir + "/" + segmentFile), None, NoPayload))
  {
    var stored := prefix + "/" + dir + "/" + name;
    SplitTail(prefix, dir, name);
    var parts := SplitOn(stored, '/');
    assert parts[|parts| - 2] == dir;
    assert SecondToLast(parts) == Success(dir);
  }

  lemma {:induction false} SplitTail(prefix: string, dir: string, name: string)
    requires '/' !in dir && '/' !in name
    ensures SplitOn(prefix + "/" + dir + "/" + name, '/') == SplitOn(prefix, '/') + [dir, name]
  {
    assert prefix + "/" + dir + "/" + name == prefix + ['/'] + (dir + ['/'] + name);
    SplitAround(prefix, '/', dir + "/" + name);
    SplitAround(dir, '/', name);
    assert SplitOn(dir, '/') == [dir];
    assert SplitOn(name, '/') == [name];
  }

  /** The id `get_key` asks for: the zero id for a live channel, whatever its id,
      otherwise the stream id of the tune response. */
  function KeyId(entityType: string, tune: Option<Body>): (r: Result<string, Error>)
    ensures entityType == ChannelLinear ==> r == Success(ZeroKeyId)
    ensures entityType != ChannelLinear ==> r == StreamId(tune)
  {
    if entityType == ChannelLinear then Success(ZeroKeyId) else StreamId(tune)
  }

  function KeyUrl(keyId: string): string
  {
    KeyUrlPrefix + keyId
  }

  /** The key URL names its key id: the id is what follows the endpoint's prefix. */
  lemma {:induction false} KeyUrlNamesKeyId(keyId: string, other: string)
    ensures KeyUrl(keyId)[..|KeyUrlPrefix|] == KeyUrlPrefix && KeyUrl(keyId)[|KeyUrlPrefix|..] == keyId
    ensures KeyUrl(keyId) == KeyUrl(other) ==> keyId == other
  {
    if KeyUrl(keyId) == KeyUrl(other) {
      assert KeyUrl(other)[|KeyUrlPrefix|..] == other;
    }
  }

  /** The request `get_key` makes. */
  function KeyCall(entityType: string, tune: Option<Body>): (r: Result<Call, Error>)
    ensures r.Success? <==> KeyId(entityType, tune).Success?
    ensures r.Success? ==> r.value.url == Some(KeyUrl(KeyId(entityType, tune).value)) && r.value.verb == "GET"
  {
    var keyId :- KeyId(entityType, tune);
    Success(Call("GET", Some(KeyUrl(keyId)), None, NoPayload))
  }
}
