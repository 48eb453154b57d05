/** Service streams through the gateway: identity frames, the route overlay and the admission of callers. */
module Gateway {
  import opened Values
  import opened Sessions

  type Byte = b: int | 0 <= b < 256

  type Bytes = seq<Byte>

  datatype ExportRoute = ExportRoute(serviceIdentity: Bytes, target: string, targetPeers: seq<string>)

  // ---------------------------------------------------------------------------------------------
  // Frames
  // ---------------------------------------------------------------------------------------------

  const MAX_IDENTITY: nat := 2048

  /** What the import side writes: `uint16(len(identity))`, big endian, then the identity. */
  function Frame(identity: Bytes): Bytes {
    var size := |identity| % 0x1_0000;
    [size / 256, size % 256] + identity
  }

  datatype ReadError = Short | BadSize

  /** What the export side takes off the stream, and what it leaves unread. */
  function ReadFrame(stream: Bytes): Result<(Bytes, Bytes), ReadError> {
    if |stream| < 2 then Err(Short)
    else
      var size: int := (stream[0] as int) * 256 + stream[1] as int;
      if size == 0 || size > MAX_IDENTITY then Err(BadSize)
      else if |stream| < 2 + size then Err(Short)
      else Ok((stream[2..2 + size], stream[2 + size..]))
  }

  /**
   The export side recovers exactly the identity and leaves the payload unread, for 1 to 2048 bytes and no other
   length; a longer identity whose length wraps is never mistaken for one, since more than the payload stays unread.
   */
  lemma FrameRoundTrip(identity: Bytes, payload: Bytes)
    ensures ReadFrame(Frame(identity) + payload) == Ok((identity, payload)) <==> 1 <= |identity| <= MAX_IDENTITY
    ensures var r := ReadFrame(Frame(identity) + payload);
            !(1 <= |identity| <= MAX_IDENTITY) ==> r.Err? || |r.value.1| > |payload|
  {
    var stream := Frame(identity) + payload;
    assert |stream| == 2 + |identity| + |payload|;
    if 1 <= |identity| <= MAX_IDENTITY {
      assert stream[2..2 + |identity|] == identity;
      assert stream[2 + |identity|..] == payload;
    }
  }

  /** Two length bytes are rejected, whatever follows them or fails to, exactly when they declare zero or more than 2048. */
  lemma BadLengthsRejected(identity: Bytes, rest: Bytes)
    ensures ReadFrame(Frame(identity)[..2] + rest) == Err(BadSize) <==>
            |identity| % 0x1_0000 == 0 || |identity| % 0x1_0000 > MAX_IDENTITY
  {
    var stream, size := Frame(identity)[..2] + rest, |identity| % 0x1_0000;
    assert stream[0] == size / 256 && stream[1] == size % 256;
  }

  // ---------------------------------------------------------------------------------------------
  // Routes
  // ---------------------------------------------------------------------------------------------

  type Routes = map<Bytes, ExportRoute>

  /** Routes entered one after the other: a later route replaces an earlier one. */
  function Overlay(routes: Routes, list: seq<ExportRoute>): Routes {
    if list == [] then routes
    else
      var last := list[|list| - 1];
      Overlay(routes, list[..|list| - 1])[last.serviceIdentity := last]
  }

  /** Route `i` is the last of the list for `identity`. */
  predicate LastAt(list: seq<ExportRoute>, identity: Bytes, i: nat) {
    && i < |list| && list[i].serviceIdentity == identity
    && forall j | i < j < |list| :: list[j].serviceIdentity != identity
  }

  lemma {:induction false} OverlayIsLastMatch(list: seq<ExportRoute>, identity: Bytes)
    ensures identity in Overlay(map[], list) <==> exists i: nat :: LastAt(list, identity, i)
    ensures forall i: nat | LastAt(list, identity, i) :: identity in Overlay(map[], list) && Overlay(map[], list)[identity] == list[i]
  {
    if list != [] {
      var k := |list| - 1;
      OverlayIsLastMatch(list[..k], identity);
      if list[k].serviceIdentity == identity {
        assert LastAt(list, identity, k);
      } else {
        forall i: nat ensures LastAt(list, identity, i) <==> LastAt(list[..k], identity, i) {
          assert i < k ==> list[..k][i] == list[i];
        }
      }
    }
  }

  lemma {:induction false} OverlayAppends(routes: Routes, first: seq<ExportRoute>, second: seq<ExportRoute>)
    ensures Overlay(Overlay(routes, first), second) == Overlay(routes, first + second)
    decreases |second|
  {
    if second == [] {
      assert first + second == first;
    } else {
      assert (first + second)[..|first + second| - 1] == first + second[..|second| - 1];
      OverlayAppends(routes, first, second[..|second| - 1]);
    }
  }

  /** Startup: static routes, refused as a whole if any is incomplete. */
  method StaticRoutes(exports: seq<ExportRoute>) returns (routes: Option<Routes>)
    ensures routes == if exists r <- exports :: r.serviceIdentity == [] || r.target == "" then None else Some(Overlay(map[], exports))
  {
    var built: Routes := map[];
    for i := 0 to |exports|
      invariant built == Overlay(map[], exports[..i])
      invariant forall r <- exports[..i] :: r.serviceIdentity != [] && r.target != ""
    {
      if exports[i].serviceIdentity == [] || exports[i].target == "" {
        return None;
      }
      assert exports[..i + 1][..i] == exports[..i];
      built := built[exports[i].serviceIdentity := exports[i]];
    }
    assert exports[..|exports|] == exports;
    return Some(built);
  }

  type PeerIdentities = map<string, seq<string>>

  function AllowedAs(peers: PeerIdentities, peer: string): seq<string> {
    if peer in peers then peers[peer] else []
  }

  predicate Names(allowed: seq<string>, caller: string) {
    exists a <- allowed :: Canonical(a) == Canonical(caller)
  }

  /** The route's target peers admit the caller: by wildcard, or by one of a peer's identities up to one trailing slash. */
  predicate Admits(route: ExportRoute, peers: PeerIdentities, caller: string) {
    exists peer <- route.targetPeers :: peer == "*" || Names(AllowedAs(peers, peer), caller)
  }

  method RouteAllowsIdentity(route: ExportRoute, peers: PeerIdentities, caller: string) returns (ok: bool)
    ensures ok <==> Admits(route, peers, caller)
  {
    var identity := Canonical(caller);
    for i := 0 to |route.targetPeers|
      invariant forall p <- route.targetPeers[..i] :: p != "*" && !Names(AllowedAs(peers, p), caller)
    {
      var peer := route.targetPeers[i];
      assert peer in route.targetPeers && route.targetPeers[..i + 1] == route.targetPeers[..i] + [peer];
      if peer == "*" {
        return true;
      }
      var allowed := if peer in peers then peers[peer] else [];
      for j := 0 to |allowed|
        invariant forall a <- allowed[..j] :: Canonical(a) != identity
      {
        assert allowed[..j + 1] == allowed[..j] + [allowed[j]];
        if Canonical(allowed[j]) == identity {
          assert allowed[j] in allowed && Names(AllowedAs(peers, peer), caller);
          return true;
        }
      }
      assert allowed[..|allowed|] == allowed == AllowedAs(peers, peer);
    }
    assert route.targetPeers[..|route.targetPeers|] == route.targetPeers;
    return false;
  }

  // ---------------------------------------------------------------------------------------------
  // Serving a stream
  // ---------------------------------------------------------------------------------------------

  /** "among-clusters.internal/session-heartbeat" */
  const HEARTBEAT: Bytes := [
    97, 109, 111, 110, 103, 45, 99, 108, 117, 115, 116, 101, 114, 115, 46, 105, 110, 116, 101, 114, 110, 97, 108, 47,
    115, 101, 115, 115, 105, 111, 110, 45, 104, 101, 97, 114, 116, 98, 101, 97, 116]

  datatype Outcome =
    | FrameRejected(error: ReadError)
    | HeartbeatAcknowledged
    | NotAdvertised
    | OutsideTargetPeers
    | Dialled(target: string, unread: Bytes)

  function Serve(stream: Bytes, resolved: Routes, peers: PeerIdentities, caller: string): Outcome {
    match ReadFrame(stream)
    case Err(e) => FrameRejected(e)
    case Ok((identity, unread)) =>
      if identity == HEARTBEAT then HeartbeatAcknowledged
      else if identity !in resolved then NotAdvertised
      else if !Admits(resolved[identity], peers, caller) then OutsideTargetPeers
      else Dialled(resolved[identity].target, unread)
  }

  /** One accepted stream: the routes of the file are laid over the static ones for this stream only. */
  method HandleExport(stream: Bytes, routes: Routes, file: seq<ExportRoute>, peers: PeerIdentities, caller: string)
    returns (outcome: Outcome)
    ensures outcome == Serve(stream, Overlay(routes, file), peers, caller)
  {
    var frame := ReadFrame(stream);
    if frame.Err? {
      return FrameRejected(frame.error);
    }
    var identity := frame.value.0;
    if identity == HEARTBEAT {
      return HeartbeatAcknowledged;
    }
    var resolved := routes;
    for i := 0 to |file|
      invariant resolved == Overlay(routes, file[..i])
    {
      assert file[..i + 1][..i] == file[..i];
      resolved := resolved[file[i].serviceIdentity := file[i]];
    }
    assert file[..|file|] == file;
    if identity !in resolved {
      return NotAdvertised;
    }
    var allowed := RouteAllowsIdentity(resolved[identity], peers, caller);
    if !allowed {
      return OutsideTargetPeers;
    }
    return Dialled(resolved[identity].target, frame.value.1);
  }

  /**
   An import of `identity` reaches a target exactly when the frame is readable, it is no heartbeat, and the last
   route for it in static-then-file order admits the caller; the target then reads exactly the payload.
   */
  lemma ImportReachesLastRoute(
    identity: Bytes, payload: Bytes, exports: seq<ExportRoute>, file: seq<ExportRoute>, peers: PeerIdentities,
    caller: string, target: string)
    ensures Serve(Frame(identity) + payload, Overlay(Overlay(map[], exports), file), peers, caller) == Dialled(target, payload) <==>
            && 1 <= |identity| <= MAX_IDENTITY && identity != HEARTBEAT
            && exists i: nat | LastAt(exports + file, identity, i) ::
                 Admits((exports + file)[i], peers, caller) && (exports + file)[i].target == target
  {
    hide Frame, ReadFrame, Admits, LastAt;
    FrameRoundTrip(identity, payload);
    OverlayAppends(map[], exports, file);
    OverlayIsLastMatch(exports + file, identity);
  }

  /** The answer to every stream that carries an identity: by its length, the heartbeat, the last route for it in static-then-file order, and that route's admission of the caller. */
  lemma StreamAnswers(
    identity: Bytes, payload: Bytes, exports: seq<ExportRoute>, file: seq<ExportRoute>, peers: PeerIdentities, caller: string)
    requires |identity| < 0x1_0000
    ensures var answer, routes := Serve(Frame(identity) + payload, Overlay(Overlay(map[], exports), file), peers, caller), exports + file;
            && (answer.FrameRejected? <==> identity == [] || |identity| > 2048)
            && (answer.HeartbeatAcknowledged? <==> identity == HEARTBEAT)
            && (answer.NotAdvertised? <==> 1 <= |identity| <= 2048 && identity != HEARTBEAT && forall r <- routes :: r.serviceIdentity != identity)
            && (answer.OutsideTargetPeers? <==>
                  1 <= |identity| <= 2048 && identity != HEARTBEAT && exists i: nat | LastAt(routes, identity, i) :: !Admits(routes[i], peers, caller))
            && (answer.Dialled? <==>
                  1 <= |identity| <= 2048 && identity != HEARTBEAT && exists i: nat | LastAt(routes, identity, i) :: Admits(routes[i], peers, caller))
  {
    hide Frame, ReadFrame, Admits, LastAt;
    FrameRoundTrip(identity, payload);
    if !(1 <= |identity| <= MAX_IDENTITY) { LongFramesAreRejected(identity, payload); }
    HeartbeatIsLegal();
    OverlayAppends(map[], exports, file);
    OverlayIsLastMatch(exports + file, identity);
    LastIsListed(exports + file, identity);
  }

  /** The heartbeat is a legal identity, the bytes of its text. */
  lemma HeartbeatIsLegal()
    ensures var text := "among-clusters.internal/session-heartbeat";
            1 <= |HEARTBEAT| == |text| <= MAX_IDENTITY && forall i | 0 <= i < |text| :: HEARTBEAT[i] == text[i] as int
  {
  }

  lemma LongFramesAreRejected(identity: Bytes, payload: Bytes)
    requires |identity| < 0x1_0000 && !(1 <= |identity| <= MAX_IDENTITY)
    ensures ReadFrame(Frame(identity) + payload) == Err(BadSize)
  {
    BadLengthsRejected(identity, identity + payload);
    assert Frame(identity)[..2] + (identity + payload) == Frame(identity) + payload;
  }

  /** A listed route has a last one for its identity. */
  lemma {:induction false} LastAtExists(list: seq<ExportRoute>, identity: Bytes, i: nat) returns (last: nat)
    requires i < |list| && list[i].serviceIdentity == identity
    ensures LastAt(list, identity, last)
    decreases |list| - i
  {
    if j: nat :| i < j < |list| && list[j].serviceIdentity == identity {
      last := LastAtExists(list, identity, j);
    } else {
      last := i;
    }
  }

  lemma LastIsListed(list: seq<ExportRoute>, identity: Bytes)
    ensures (exists i: nat :: LastAt(list, identity, i)) <==> exists r <- list :: r.serviceIdentity == identity
  {
    if r :| r in list && r.serviceIdentity == identity {
      var i: nat :| i < |list| && list[i] == r;
      var last := LastAtExists(list, identity, i);
    }
    if i: nat :| LastAt(list, identity, i) {
      assert list[i] in list;
    }
  }
}
