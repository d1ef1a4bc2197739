/** The two classes of the package as objects with mutable fields: `SxmClient`
    (aiosxm/client.py) and `SxmStream` (aiosxm/stream.py). Every method runs the
    steps of its Python counterpart one statement at a time and is proved to leave
    exactly the state, and return exactly the result, that the matching function
    of `Auth` or `Stream` computes; what those functions promise is proved there. */
module Client {
  import opened Common
  import opened Http
  import Auth
  import Stream

  class SxmClient {
    const username: string
    const password: string
    const server: Server

    var deviceSession: Option<Body>
    var anonymousSession: Option<Body>
    var authenticationResponse: Option<Body>
    var authenticatedSession: Option<Body>
    var accessToken: Option<string>
    var expiration: Option<int>
    /** SXM_REQUEST_HEADERS, which `request` updates in place when a call passes no headers. */
    var defaultHeaders: map<string, string>
    /** The requests handed to the transport so far. */
    var sent: seq<Outgoing>
    var streams: map<(string, string), SxmStream>

    function Env(): Auth.Env
    {
      Auth.Env(username, password, server)
    }

    function State(): Auth.ClientState
      reads this
    {
      Auth.ClientState(deviceSession, anonymousSession, authenticationResponse, authenticatedSession,
                       accessToken, expiration, defaultHeaders, sent)
    }

    /** Every registered stream belongs to this client and sits under its own key. */
    predicate Valid()
      reads this
    {
      forall k | k in streams :: streams[k].client == this && streams[k].entityType == k.0 && streams[k].entityId == k.1
    }

    constructor(username: string, password: string, server: Server)
      ensures Env() == Auth.Env(username, password, server)
      ensures State() == Auth.Initial && streams == map[] && Valid()
    {
      this.username := username;
      this.password := password;
      this.server := server;
      deviceSession := None;
      anonymousSession := None;
      authenticationResponse := None;
      authenticatedSession := None;
      accessToken := None;
      expiration := None;
      defaultHeaders := Auth.RequestHeaders;
      sent := [];
      streams := map[];
    }

    /** `request`: refresh an expired token through the chain, attach the bearer,
        send, and decode or wrap the reply. */
    method Request(verb: string, url: Option<string>, headers: Option<map<string, string>>, payload: Payload)
      returns (r: Result<Body, Error>)
      modifies this
      decreases Auth.Level(expiration), 0
      ensures (r, State()) == Auth.Request(Env(), old(State()), Auth.Call(verb, url, headers, payload))
      ensures streams == old(streams)
    {
      ghost var c := Auth.Call(verb, url, headers, payload);
      if expiration.Some? && server.clock(|sent|) >= expiration.value {
        accessToken := None;
        expiration := None;
        var o := Authenticate();
        if o.Fail? {
          return Failure(o.error);
        }
      }
      ghost var s1 := State();
      var h := Authorize(if headers.None? then defaultHeaders else headers.value, accessToken);
      if headers.None? {
        defaultHeaders := h;
      }
      if url.None? {
        assert (Failure(RuntimeFault(TypeError, None)), State()) == Auth.Send(Env(), s1, c);
        return Failure(RuntimeFault(TypeError, None));
      }
      var out := Outgoing(verb, url.value, h, payload);
      var reply := server.reply(|sent|, out);
      sent := sent + [out];
      r := Receive(url.value, reply);
      assert (r, State()) == Auth.Send(Env(), s1, c);
    }

    /** `_create_device_session`. */
    method CreateDeviceSession() returns (o: Outcome)
      modifies this
      decreases Auth.Level(expiration), 1
      ensures (o, State()) == Auth.CreateDeviceSession(Env(), old(State()))
      ensures streams == old(streams)
    {
      var r := Request("POST", Some(Auth.DevicesUrl), None, DevicePayload);
      if r.Failure? {
        return Fail(r.error);
      }
      deviceSession := Some(r.value);
      o := Pass;
    }

    /** `_create_anonymous_session`. */
    method CreateAnonymousSession(deviceGrant: string) returns (o: Outcome)
      modifies this
      decreases Auth.Level(expiration), 1
      ensures (o, State()) == Auth.CreateAnonymousSession(Env(), old(State()), deviceGrant)
      ensures streams == old(streams)
    {
      var r := Request("POST", Some(Auth.AnonymousUrl), Some(defaultHeaders[Authorization := "Bearer " + deviceGrant]),
                       JsonPayload(JBool(true)));
      if r.Failure? {
        return Fail(r.error);
      }
      anonymousSession := Some(r.value);
      o := Pass;
    }

    /** `_get_identity_status`. */
    method GetIdentityStatus(anonymousToken: string) returns (r: Result<Body, Error>)
      modifies this
      decreases Auth.Level(expiration), 1
      ensures (r, State()) == Auth.GetIdentityStatus(Env(), old(State()), anonymousToken)
      ensures streams == old(streams)
    {
      r := Request("GET", Some(Auth.IdentityUrl(username)), Some(defaultHeaders[Authorization := "Bearer " + anonymousToken]),
                   JsonPayload(JBool(true)));
    }

    /** `_authenticate_with_password`. */
    method AuthenticateWithPassword(anonymousToken: string) returns (o: Outcome)
      modifies this
      decreases Auth.Level(expiration), 1
      ensures (o, State()) == Auth.AuthenticateWithPassword(Env(), old(State()), anonymousToken)
      ensures streams == old(streams)
    {
      var r := Request("POST", Some(Auth.PasswordUrl), Some(defaultHeaders[Authorization := "Bearer " + anonymousToken]),
                       Auth.PasswordPayload(Env()));
      if r.Failure? {
        return Fail(r.error);
      }
      authenticationResponse := Some(r.value);
      o := Pass;
    }

    /** `_create_authenticated_session`. */
    method CreateAuthenticatedSession(authenticationGrant: string) returns (o: Outcome)
      modifies this
      decreases Auth.Level(expiration), 1
      ensures (o, State()) == Auth.CreateAuthenticatedSession(Env(), old(State()), authenticationGrant)
      ensures streams == old(streams)
    {
      var r := Request("POST", Some(Auth.AuthenticatedUrl), Some(defaultHeaders[Authorization := "Bearer " + authenticationGrant]),
                       JsonPayload(JBool(true)));
      if r.Failure? {
        return Fail(r.error);
      }
      authenticatedSession := Some(r.value);
      o := Pass;
    }

    /** `_authenticate`, up to the password check; the rest is `AuthenticateWithIdentity`. */
    method Authenticate() returns (o: Outcome)
      modifies this
      decreases Auth.Level(expiration), 3
      ensures (o, State()) == Auth.Authenticate(Env(), old(State()))
      ensures streams == old(streams)
    {
      if !BodyTruthy(deviceSession) {
        var o0 := CreateDeviceSession();
        if o0.Fail? {
          return Fail(Auth.Wrap(Env(), o0.error));
        }
      }
      ghost var s0 := State();
      assert Auth.Authenticate(Env(), old(State())) == Auth.AfterDevice(Env(), s0);

      var grant := StrField(deviceSession, "grant");
      if grant.Failure? {
        return Fail(grant.error);
      }
      var o1 := CreateAnonymousSession(grant.value);
      if o1.Fail? {
        return Fail(Auth.Wrap(Env(), o1.error));
      }
      ghost var s1 := State();
      assert Auth.AfterDevice(Env(), s0) == Auth.AfterAnonymous(Env(), s1);

      var anonymous := StrField(anonymousSession, "accessToken");
      if anonymous.Failure? {
        return Fail(anonymous.error);
      }
      var identityStatus := GetIdentityStatus(anonymous.value);
      if identityStatus.Failure? {
        return Fail(Auth.Wrap(Env(), identityStatus.error));
      }
      var hasPassword := BodyKey(Some(identityStatus.value), "hasPassword");
      if hasPassword.Failure? {
        return Fail(hasPassword.error);
      }
      if !Truthy(hasPassword.value) {
        return Fail(Auth.RaiseAuthenticationError(Auth.NoPasswordMessage(username), None));
      }
      o := AuthenticateWithIdentity();
    }

    /** The rest of `_authenticate` once the identity is known to have a password:
        read the anonymous token again, authenticate with the password, create the
        authenticated session and store its token, then its expiry. */
    method AuthenticateWithIdentity() returns (o: Outcome)
      modifies this
      decreases Auth.Level(expiration), 2
      ensures (o, State()) == Auth.AfterIdentity(Env(), old(State()))
      ensures streams == old(streams)
    {
      var anonymous := StrField(anonymousSession, "accessToken");
      if anonymous.Failure? {
        return Fail(anonymous.error);
      }
      var o3 := AuthenticateWithPassword(anonymous.value);
      if o3.Fail? {
        return Fail(Auth.Wrap(Env(), o3.error));
      }
      ghost var s3 := State();
      assert Auth.AfterIdentity(Env(), old(State())) == Auth.AfterPassword(Env(), s3);

      var authGrant := StrField(authenticationResponse, "grant");
      if authGrant.Failure? {
        return Fail(authGrant.error);
      }
      var o4 := CreateAuthenticatedSession(authGrant.value);
      if o4.Fail? {
        return Fail(Auth.Wrap(Env(), o4.error));
      }
      ghost var s4 := State();
      assert Auth.AfterPassword(Env(), s3) == Auth.StoreToken(s4);

      var token := StrField(authenticatedSession, "accessToken");
      if token.Failure? {
        return Fail(token.error);
      }
      accessToken := Some(token.value);
      var expiry := Auth.ExpiryField(authenticatedSession);
      if expiry.Failure? {
        return Fail(expiry.error);
      }
      expiration := Some(expiry.value);
      o := Pass;
    }

    /** `connect`: register a device, authenticate, fetch the web player page. */
    method Connect() returns (o: Outcome)
      modifies this
      ensures (o, State()) == Auth.Connect(Env(), old(State()))
      ensures streams == old(streams)
    {
      o := CreateDeviceSession();
      if o.Fail? {
        return;
      }
      ghost var s0 := State();
      o := Authenticate();
      if o.Fail? {
        return;
      }
      ghost var s1 := State();
      assert Auth.Connect(Env(), old(State())) == (
        var (r2, s2) := Auth.Request(Env(), s1, Auth.Call("GET", Some(Auth.PlayerUrl), None, NoPayload));
        if r2.Failure? then (Fail(r2.error), s2) else (Pass, s2));
      var r := Request("GET", Some(Auth.PlayerUrl), None, NoPayload);
      if r.Failure? {
        return Fail(r.error);
      }
    }

    /** `get_stream`: one stream per (entity type, entity id), created on first use and
        initialized until an initialization succeeds. */
    method GetStream(entityType: string, entityId: string) returns (stream: SxmStream, o: Outcome)
      requires Valid()
      modifies this, streams.Values
      ensures Valid()
      ensures streams == old(streams)[(entityType, entityId) := stream]
      ensures stream.client == this && stream.entityType == entityType && stream.entityId == entityId
      ensures (entityType, entityId) in old(streams) ==> stream == old(streams[(entityType, entityId)])
      ensures (entityType, entityId) !in old(streams) ==> fresh(stream)
      ensures forall k | k in old(streams) && k != (entityType, entityId) :: unchanged(old(streams)[k])
      ensures old((entityType, entityId) in streams && streams[(entityType, entityId)].initialized) ==>
        o == Pass && State() == old(State()) && unchanged(stream)
      ensures !old((entityType, entityId) in streams && streams[(entityType, entityId)].initialized) ==>
        (o, State(), stream.Handle())
        == Stream.Initialize(Env(), old(State()), entityType, entityId,
                             if (entityType, entityId) in old(streams) then old(streams[(entityType, entityId)].Handle())
                             else Stream.Fresh)
      ensures o.Pass? ==> stream.initialized
    {
      var key := (entityType, entityId);
      if key !in streams {
        var created := new SxmStream(this, entityType, entityId);
        streams := streams[key := created];
      }
      stream := streams[key];
      if !stream.initialized {
        o := stream.Initialize();
        Stream.InitializeResult(Env(), old(State()), entityType, entityId,
                                if key in old(streams) then old(streams[key].Handle()) else Stream.Fresh,
                                o, State(), stream.Handle());
      } else {
        o := Pass;
      }
    }
  }

  class SxmStream {
    const client: SxmClient
    const entityType: string
    const entityId: string
    var initialized: bool
    var tuneSource: Option<Body>
    var byBitrate: map<string, Option<string>>

    function Handle(): Stream.Handle
      reads this
    {
      Stream.Handle(initialized, tuneSource, byBitrate)
    }

    constructor(client: SxmClient, entityType: string, entityId: string)
      ensures this.client == client && this.entityType == entityType && this.entityId == entityId
      ensures Handle() == Stream.Fresh
    {
      this.client := client;
      this.entityType := entityType;
      this.entityId := entityId;
      initialized := false;
      tuneSource := None;
      byBitrate := map[];
    }

    /** `initialize`. */
    method Initialize() returns (o: Outcome)
      modifies this, client
      ensures (o, client.State(), Handle())
           == Stream.Initialize(client.Env(), old(client.State()), entityType, entityId, old(Handle()))
      ensures client.streams == old(client.streams)
    {
      var tune := client.Request("POST", Some(Stream.TuneSourceUrl), None, Stream.TunePayload(entityType, entityId));
      if tune.Failure? {
        return Fail(tune.error);
      }
      tuneSource := Some(tune.value);
      ghost var cs1 := client.State();
      var url := Stream.ManifestUrl(tuneSource);
      if url.Failure? {
        return Fail(url.error);
      }
      var manifest := client.Request("GET", Some(url.value), None, NoPayload);
      if manifest.Failure? {
        return Fail(manifest.error);
      }
      var text := AsText(manifest.value);
      if text.Failure? {
        return Fail(text.error);
      }
      FillTable(Stream.Lines(text.value), Stream.Bitrates);
      initialized := true;
      o := Pass;
    }

    /** The loop of `initialize`: probe each bitrate in order and store what it finds. */
    method FillTable(lines: seq<string>, bitrates: seq<string>)
      requires Stream.ManifestUrl(tuneSource).Success?
      modifies this
      ensures initialized == old(initialized) && tuneSource == old(tuneSource)
      ensures byBitrate == Stream.Fill(old(byBitrate), Stream.BaseUrl(Stream.ManifestUrl(tuneSource).value), lines, bitrates)
    {
      ghost var base := Stream.BaseUrl(Stream.ManifestUrl(tuneSource).value);
      for i := 0 to |bitrates|
        invariant initialized == old(initialized) && tuneSource == old(tuneSource)
        invariant byBitrate == Stream.Fill(old(byBitrate), base, lines, bitrates[..i])
      {
        var bitrate := bitrates[i];
        var entry := SearchBitrate(lines, bitrate);
        Stream.FillStep(old(byBitrate), base, lines, bitrates, i);
        byBitrate := byBitrate[bitrate := entry];
      }
      assert bitrates[..|bitrates|] == bitrates;
    }

    /** One pass of that loop: the first manifest line naming the bitrate, stripped and
        joined to the base URL, or nothing. */
    method SearchBitrate(lines: seq<string>, bitrate: string) returns (entry: Option<string>)
      requires Stream.ManifestUrl(tuneSource).Success?
      ensures entry == Stream.Probe(Stream.BaseUrl(Stream.ManifestUrl(tuneSource).value), lines, bitrate)
    {
      ghost var base := Stream.BaseUrl(Stream.ManifestUrl(tuneSource).value);
      var line := Stream.FirstLine(lines, Stream.Marker(bitrate));
      Stream.ProbeFromLine(base, lines, bitrate, line);
      if line.Some? {
        var baseUrl := Stream.BaseUrlOf(tuneSource);
        assert baseUrl.value == base;
        entry := Some(baseUrl.value + "/" + Stream.Strip(lines[line.value]));
      } else {
        entry := None;
      }
    }

    /** `get_playlist`: fetch the stored playlist URL of a bitrate. */
    method GetPlaylist(bitrate: string) returns (r: Result<Body, Error>)
      modifies client
      ensures (r, client.State()) == Auth.Request(client.Env(), old(client.State()), Stream.PlaylistCall(Handle(), bitrate))
      ensures client.streams == old(client.streams)
    {
      var url := if bitrate in byBitrate then byBitrate[bitrate] else None;
      r := client.Request("GET", url, None, NoPayload);
    }

    /** `get_segment`: fetch a segment from the directory of the bitrate's playlist. */
    method GetSegment(segmentFile: string, bitrate: string) returns (r: Result<Body, Error>)
      modifies client
      ensures Stream.SegmentCall(Handle(), segmentFile, bitrate).Failure? ==>
        r == Failure(Stream.SegmentCall(Handle(), segmentFile, bitrate).error) && unchanged(client)
      ensures Stream.SegmentCall(Handle(), segmentFile, bitrate).Success? ==>
        (r, client.State()) == Auth.Request(client.Env(), old(client.State()), Stream.SegmentCall(Handle(), segmentFile, bitrate).value)
      ensures client.streams == old(client.streams)
    {
      var stored := if bitrate in byBitrate then byBitrate[bitrate] else None;
      if stored.None? {
        return Failure(RuntimeFault(AttributeError, None));
      }
      var parts := Stream.SplitOn(stored.value, '/');
      if |parts| < 2 {
        return Failure(RuntimeFault(IndexError, None));
      }
      var bitrateDir := parts[|parts| - 2];
      var baseUrl := Stream.BaseUrlOf(tuneSource);
      if baseUrl.Failure? {
        return Failure(baseUrl.error);
      }
      r := client.Request("GET", Some(baseUrl.value + "/" + bitrateDir + "/" + segmentFile), None, NoPayload);
    }

    /** `get_key`: fetch the playback key of this stream. */
    method GetKey() returns (r: Result<Body, Error>)
      modifies client
      ensures Stream.KeyCall(entityType, tuneSource).Failure? ==>
        r == Failure(Stream.KeyCall(entityType, tuneSource).error) && unchanged(client)
      ensures Stream.KeyCall(entityType, tuneSource).Success? ==>
        (r, client.State()) == Auth.Request(client.Env(), old(client.State()), Stream.KeyCall(entityType, tuneSource).value)
      ensures client.streams == old(client.streams)
    {
      var keyId := if entityType == Stream.ChannelLinear then Success(Stream.ZeroKeyId) else Stream.StreamId(tuneSource);
      if keyId.Failure? {
        return Failure(keyId.error);
      }
      r := client.Request("GET", Some(Stream.KeyUrlPrefix + keyId.value), None, NoPayload);
    }
  }
}
