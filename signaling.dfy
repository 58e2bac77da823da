/**
 * The relay protocol and the connection registry. A browser peer connection
 * is opaque here: it becomes a record of the team it was created for, the
 * speaker name its track handler captured, the descriptions and candidates
 * handed to it, and whether the local audio track is attached to it.
 * `Receive` states what the message handler does with one envelope.
 */
module Signaling {
  import opened Routing

  /** The message types of the relay protocol with their payloads (opaque SDP and candidate text). */
  datatype Body =
    | Offer(offer: string)
    | Answer(answer: string)
    | Ice(ice: string)
    | Other(kind: string)

  /** One relayed signaling envelope. An absent display name is the empty string. */
  datatype Envelope = Envelope(body: Body, to: string, from: string, fromName: string)

  /**
   * A peer connection. `serial` stands for the object's identity: every
   * connection created gets a serial number no earlier connection had.
   */
  datatype Peer = Peer(
    serial: nat,
    id: string,
    speakerName: string,
    remoteDescription: string,
    localDescription: string,
    candidates: seq<string>,
    audioAttached: bool)

  /** What the message handler did with one envelope. */
  datatype Outcome =
    | Filtered        // addressed to another team: returned before any branch
    | PeerCreated     // offer: a new connection registered and an answer sent
    | AnswerApplied   // answer handed to the registered connection of the sender
    | CandidateAdded  // candidate handed to the registered connection of the sender
    | UnknownPeer     // answer or candidate from a team with no entry: the lookup fails and the handler throws
    | Unhandled       // a message type none of the branches tests

  /**
   * The effect of one envelope: the outcome, the new registry and serial
   * counter, the envelopes sent, and the connections dropped from the
   * registry. A dropped connection is never closed: it stays open with
   * whatever tracks it carries.
   */
  datatype Reception = Reception(outcome: Outcome, peers: map<string, Peer>, nextSerial: nat, sent: seq<Envelope>,
                                 retired: seq<Peer>)

  /**
   * The registry is well formed: each entry is the connection created for
   * its key, and serial numbers are distinct and below `nextSerial`.
   */
  ghost predicate Registered(peers: map<string, Peer>, nextSerial: nat)
  {
    && (forall id :: id in peers ==> peers[id].id == id && peers[id].serial < nextSerial)
    && (forall a, b :: a in peers && b in peers && a != b ==> peers[a].serial != peers[b].serial)
  }

  /** `after` holds the same connection objects as `before`, under the same keys. */
  ghost predicate SameConnections(before: map<string, Peer>, after: map<string, Peer>)
  {
    && after.Keys == before.Keys
    && forall id :: id in before ==> after[id].id == before[id].id && after[id].serial == before[id].serial
  }

  /** Changing what is handed to existing connections keeps the registry well formed. */
  lemma RegisteredKept(before: map<string, Peer>, after: map<string, Peer>, nextSerial: nat)
    requires Registered(before, nextSerial) && SameConnections(before, after)
    ensures Registered(after, nextSerial)
  {
  }

  /**
   * Registering a connection created now, under its own id, keeps the
   * registry well formed, whether or not it replaces an entry; the new
   * connection is later than every connection in the registry before.
   */
  lemma RegisterFresh(peers: map<string, Peer>, nextSerial: nat, p: Peer)
    requires Registered(peers, nextSerial) && p.serial == nextSerial
    ensures Registered(peers[p.id := p], nextSerial + 1)
    ensures forall id :: id in peers ==> peers[id].serial < p.serial
  {
  }

  /**
   * The connection the offer handler ends up with: created for the
   * sender's team, carrying the offer as remote description and the
   * generated answer as local description, with no candidate and no track.
   */
  function PeerForOffer(serial: nat, env: Envelope, answerSdp: string): (p: Peer)
    requires env.body.Offer?
  {
    Peer(serial, env.from, SpeakerName(env.fromName, env.from), env.body.offer, answerSdp, [], false)
  }

  /** The reply to an offer: an answer addressed back to the offer's sender, signed with the local team and name. */
  function AnswerTo(env: Envelope, answerSdp: string, myTeam: string, myName: string): (e: Envelope)
  {
    Envelope(Answer(answerSdp), env.from, myTeam, myName)
  }

  /** A locally discovered candidate, sent to the team the connection was created for. */
  function IceTo(id: string, candidate: string, myTeam: string, myName: string): (e: Envelope)
  {
    Envelope(Ice(candidate), id, myTeam, myName)
  }

  /** The connection registered under `id`, if any, as the one an overwrite of that entry drops. */
  function Displaced(peers: map<string, Peer>, id: string): (d: seq<Peer>)
  {
    if id in peers then [peers[id]] else []
  }

  /**
   * The message handler on one envelope: the filter, then the offer branch
   * (a new connection always replaces the entry of the sender, and the old
   * one is dropped without being closed), the answer branch and the
   * candidate branch (both look the sender's entry up).
   */
  function Receive(role: Role, myTeam: string, myName: string, peers: map<string, Peer>, nextSerial: nat,
                   env: Envelope, answerSdp: string): (r: Reception)
    ensures r.outcome == Filtered <==> !Accepts(role, myTeam, env.to)
    ensures r.outcome == PeerCreated <==> Accepts(role, myTeam, env.to) && env.body.Offer?
    ensures r.outcome == UnknownPeer <==>
      Accepts(role, myTeam, env.to) && (env.body.Answer? || env.body.Ice?) && env.from !in peers
    ensures r.outcome != PeerCreated ==> r.nextSerial == nextSerial && r.sent == [] && r.retired == []
    ensures r.outcome in {Filtered, UnknownPeer, Unhandled} ==> r.peers == peers
  {
    if !Accepts(role, myTeam, env.to) then
      Reception(Filtered, peers, nextSerial, [], [])
    else
      match env.body
      case Offer(_) =>
        Reception(PeerCreated, peers[env.from := PeerForOffer(nextSerial, env, answerSdp)], nextSerial + 1,
                  [AnswerTo(env, answerSdp, myTeam, myName)], Displaced(peers, env.from))
      case Answer(answer) =>
        if env.from !in peers then Reception(UnknownPeer, peers, nextSerial, [], [])
        else Reception(AnswerApplied, peers[env.from := peers[env.from].(remoteDescription := answer)], nextSerial, [], [])
      case Ice(ice) =>
        if env.from !in peers then Reception(UnknownPeer, peers, nextSerial, [], [])
        else Reception(CandidateAdded, peers[env.from := peers[env.from].(candidates := peers[env.from].candidates + [ice])], nextSerial, [], [])
      case Other(_) =>
        Reception(Unhandled, peers, nextSerial, [], [])
  }

  /**
   * A driver handles no envelope addressed neither to its team nor to
   * "all", whatever its type; a director filters nothing out.
   */
  lemma FilterByAddress(myTeam: string, myName: string, peers: map<string, Peer>, nextSerial: nat, env: Envelope, answerSdp: string)
    ensures env.to !in {myTeam, All} ==>
      Receive(Driver, myTeam, myName, peers, nextSerial, env, answerSdp) == Reception(Filtered, peers, nextSerial, [], [])
    ensures Receive(Director, myTeam, myName, peers, nextSerial, env, answerSdp).outcome != Filtered
  {
  }

  /**
   * An accepted offer registers a new connection under the sender's team,
   * later than every connection registered before and replacing any entry
   * there, leaves the other entries alone, and replies with an answer to
   * the sender signed with the local team. The replaced connection, if any,
   * is dropped as it was, attached track included.
   */
  lemma OfferReplacesEntry(role: Role, myTeam: string, myName: string, peers: map<string, Peer>,
                           nextSerial: nat, env: Envelope, answerSdp: string)
    requires Registered(peers, nextSerial) && env.body.Offer? && Accepts(role, myTeam, env.to)
    ensures var r := Receive(role, myTeam, myName, peers, nextSerial, env, answerSdp);
      && r.outcome == PeerCreated
      && r.peers.Keys == peers.Keys + {env.from}
      && (forall id :: id in peers ==> peers[id].serial < r.peers[env.from].serial)
      && (forall id :: id in peers && id != env.from ==> r.peers[id] == peers[id])
      && r.peers[env.from].candidates == [] && !r.peers[env.from].audioAttached
      && r.sent == [Envelope(Answer(answerSdp), env.from, myTeam, myName)]
      && (env.from in peers ==> r.retired == [peers[env.from]])
      && (env.from !in peers ==> r.retired == [])
  {
    RegisterFresh(peers, nextSerial, PeerForOffer(nextSerial, env, answerSdp));
  }

  /**
   * An accepted answer or candidate from a team without entry changes
   * nothing; otherwise it changes only what was handed to the sender's
   * connection, never which connection is registered: an answer becomes its
   * remote description, a candidate is appended to its candidates, and
   * everything else on it is kept. Nothing is sent.
   */
  lemma LookupTouchesOnlySender(role: Role, myTeam: string, myName: string, peers: map<string, Peer>,
                                nextSerial: nat, env: Envelope, answerSdp: string)
    requires (env.body.Answer? || env.body.Ice?) && Accepts(role, myTeam, env.to)
    ensures var r := Receive(role, myTeam, myName, peers, nextSerial, env, answerSdp);
      && r.sent == [] && r.retired == [] && r.nextSerial == nextSerial
      && (env.from !in peers ==> r.outcome == UnknownPeer && r.peers == peers)
      && (env.from in peers ==>
            && r.outcome != UnknownPeer
            && SameConnections(peers, r.peers)
            && (forall id :: id in peers && id != env.from ==> r.peers[id] == peers[id])
            && r.peers[env.from].audioAttached == peers[env.from].audioAttached
            && (env.body.Answer? ==> r.peers[env.from] == peers[env.from].(remoteDescription := env.body.answer))
            && (env.body.Ice? ==>
                  r.peers[env.from] == peers[env.from].(candidates := peers[env.from].candidates + [env.body.ice])))
  {
  }

  /**
   * No envelope ever leaves the registry ill formed, and none attaches a
   * track: an attached entry afterwards is an entry that was attached before.
   */
  lemma ReceiveKeepsRegistry(role: Role, myTeam: string, myName: string, peers: map<string, Peer>,
                             nextSerial: nat, env: Envelope, answerSdp: string)
    requires Registered(peers, nextSerial)
    ensures var r := Receive(role, myTeam, myName, peers, nextSerial, env, answerSdp);
      && Registered(r.peers, r.nextSerial)
      && forall id :: id in r.peers && r.peers[id].audioAttached ==> id in peers && peers[id].audioAttached
  {
    if Accepts(role, myTeam, env.to) && env.body.Offer? {
      RegisterFresh(peers, nextSerial, PeerForOffer(nextSerial, env, answerSdp));
    } else if Accepts(role, myTeam, env.to) && (env.body.Answer? || env.body.Ice?) && env.from in peers {
      var r := Receive(role, myTeam, myName, peers, nextSerial, env, answerSdp);
      assert SameConnections(peers, r.peers);
      RegisteredKept(peers, r.peers, nextSerial);
    }
  }

  /** The registry and serial counter after the envelopes `envs`, handled in order. */
  function ReceiveAll(role: Role, myTeam: string, myName: string, peers: map<string, Peer>, nextSerial: nat,
                      envs: seq<Envelope>, answerSdp: string): (result: (map<string, Peer>, nat))
    decreases |envs|
  {
    if envs == [] then (peers, nextSerial)
    else
      var r := Receive(role, myTeam, myName, peers, nextSerial, envs[0], answerSdp);
      ReceiveAll(role, myTeam, myName, r.peers, r.nextSerial, envs[1..], answerSdp)
  }

  /**
   * The candidate envelopes the candidate handler of team `team`, whose
   * user is `name`, sends to `to`: one per candidate, in discovery order.
   */
  function Candidates(team: string, name: string, to: string, ices: seq<string>): (r: seq<Envelope>)
    ensures |r| == |ices|
    ensures forall i :: 0 <= i < |ices| ==> r[i] == IceTo(to, ices[i], team, name)
  {
    if ices == [] then [] else [IceTo(to, ices[0], team, name)] + Candidates(team, name, to, ices[1..])
  }

  /** Handling a non-empty sequence: the first envelope, then the rest from the state it leaves. */
  lemma ReceiveAllFirst(role: Role, myTeam: string, myName: string, peers: map<string, Peer>, nextSerial: nat,
                        env: Envelope, rest: seq<Envelope>, answerSdp: string)
    ensures var r := Receive(role, myTeam, myName, peers, nextSerial, env, answerSdp);
      ReceiveAll(role, myTeam, myName, peers, nextSerial, [env] + rest, answerSdp)
        == ReceiveAll(role, myTeam, myName, r.peers, r.nextSerial, rest, answerSdp)
  {
    assert ([env] + rest)[1..] == rest;
  }

  /** The registry with `ices` appended, in order, to the candidates of the entry of `team`. */
  function AppendCandidates(peers: map<string, Peer>, team: string, ices: seq<string>): (r: map<string, Peer>)
    requires team in peers
  {
    peers[team := peers[team].(candidates := peers[team].candidates + ices)]
  }

  /** Appending nothing changes nothing, and appending twice is appending the concatenation. */
  lemma AppendCandidatesSplit(peers: map<string, Peer>, team: string, a: seq<string>, b: seq<string>)
    requires team in peers
    ensures AppendCandidates(peers, team, []) == peers
    ensures AppendCandidates(AppendCandidates(peers, team, a), team, b) == AppendCandidates(peers, team, a + b)
  {
    assert peers[team].candidates + [] == peers[team].candidates;
    assert peers[team := peers[team]] == peers;
    assert peers[team].candidates + a + b == peers[team].candidates + (a + b);
  }

  /**
   * The first of a run of accepted candidates from a team with an entry is
   * appended to that entry; the rest are handled from there.
   */
  lemma CandidatesFirst(role: Role, myTeam: string, myName: string, peers: map<string, Peer>,
                        nextSerial: nat, team: string, name: string, to: string, ices: seq<string>, answerSdp: string)
    requires team in peers && Accepts(role, myTeam, to) && ices != []
    ensures ReceiveAll(role, myTeam, myName, peers, nextSerial, Candidates(team, name, to, ices), answerSdp)
      == ReceiveAll(role, myTeam, myName, AppendCandidates(peers, team, [ices[0]]),
                    nextSerial, Candidates(team, name, to, ices[1..]), answerSdp)
  {
    var first := IceTo(to, ices[0], team, name);
    assert Candidates(team, name, to, ices) == [first] + Candidates(team, name, to, ices[1..]);
    ReceiveAllFirst(role, myTeam, myName, peers, nextSerial, first, Candidates(team, name, to, ices[1..]), answerSdp);
  }

  /**
   * Candidates from a team with an entry, each accepted, are appended to
   * that entry in arrival order, duplicates included; no other entry, no
   * key and not the serial counter changes.
   */
  lemma {:induction false} CandidatesAppend(role: Role, myTeam: string, myName: string, peers: map<string, Peer>,
                                            nextSerial: nat, team: string, name: string, to: string, ices: seq<string>,
                                            answerSdp: string)
    requires team in peers && Accepts(role, myTeam, to)
    ensures ReceiveAll(role, myTeam, myName, peers, nextSerial, Candidates(team, name, to, ices), answerSdp)
      == (AppendCandidates(peers, team, ices), nextSerial)
  {
    AppendCandidatesSplit(peers, team, [], []);
    if ices != [] {
      CandidatesFirst(role, myTeam, myName, peers, nextSerial, team, name, to, ices, answerSdp);
      CandidatesAppend(role, myTeam, myName, AppendCandidates(peers, team, [ices[0]]), nextSerial, team, name, to, ices[1..], answerSdp);
      AppendCandidatesSplit(peers, team, [ices[0]], ices[1..]);
      assert [ices[0]] + ices[1..] == ices;
    }
  }

  /**
   * An accepted candidate from a team without entry is lost: it changes
   * nothing, so the envelopes after it are handled as if it never came.
   */
  lemma EarlyCandidateLost(role: Role, myTeam: string, myName: string, peers: map<string, Peer>, nextSerial: nat,
                           from: string, name: string, to: string, early: string, rest: seq<Envelope>, answerSdp: string)
    requires from !in peers && Accepts(role, myTeam, to)
    ensures Receive(role, myTeam, myName, peers, nextSerial, IceTo(to, early, from, name), answerSdp)
      == Reception(UnknownPeer, peers, nextSerial, [], [])
    ensures ReceiveAll(role, myTeam, myName, peers, nextSerial, [IceTo(to, early, from, name)] + rest, answerSdp)
      == ReceiveAll(role, myTeam, myName, peers, nextSerial, rest, answerSdp)
  {
    ReceiveAllFirst(role, myTeam, myName, peers, nextSerial, IceTo(to, early, from, name), rest, answerSdp);
  }

  /**
   * An accepted offer followed by an answer from the same team leave its
   * entry holding a new connection with the offer's sender and name, the
   * answer last handed to setRemoteDescription (whether the connection
   * accepts it is not modelled) and the generated answer as local one.
   */
  lemma OfferThenAnswer(role: Role, myTeam: string, myName: string, peers: map<string, Peer>, nextSerial: nat,
                        from: string, name: string, to: string, offer: string, answer: string,
                        rest: seq<Envelope>, answerSdp: string)
    requires Accepts(role, myTeam, to)
    ensures ReceiveAll(role, myTeam, myName, peers, nextSerial,
                       [Envelope(Offer(offer), to, from, name), Envelope(Answer(answer), to, from, name)] + rest, answerSdp)
      == ReceiveAll(role, myTeam, myName,
                    peers[from := Peer(nextSerial, from, SpeakerName(name, from), answer, answerSdp, [], false)],
                    nextSerial + 1, rest, answerSdp)
  {
    var e1 := Envelope(Offer(offer), to, from, name);
    var e2 := Envelope(Answer(answer), to, from, name);
    var p1 := peers[from := PeerForOffer(nextSerial, e1, answerSdp)];
    assert [e1, e2] + rest == [e1] + ([e2] + rest);
    ReceiveAllFirst(role, myTeam, myName, peers, nextSerial, e1, [e2] + rest, answerSdp);
    ReceiveAllFirst(role, myTeam, myName, p1, nextSerial + 1, e2, rest, answerSdp);
    assert p1[from := p1[from].(remoteDescription := answer)]
        == peers[from := Peer(nextSerial, from, SpeakerName(name, from), answer, answerSdp, [], false)];
  }

  /**
   * The candidates that follow the answer all land on the connection the
   * offer created, which held none: it ends up holding exactly them.
   */
  lemma NewEntryTakesCandidates(role: Role, myTeam: string, myName: string, peers: map<string, Peer>, nextSerial: nat,
                                from: string, name: string, to: string, answer: string, ices: seq<string>, answerSdp: string)
    requires Accepts(role, myTeam, to)
    ensures ReceiveAll(role, myTeam, myName,
                       peers[from := Peer(nextSerial, from, SpeakerName(name, from), answer, answerSdp, [], false)],
                       nextSerial + 1, Candidates(from, name, to, ices), answerSdp)
      == (peers[from := Peer(nextSerial, from, SpeakerName(name, from), answer, answerSdp, ices, false)], nextSerial + 1)
  {
    var created := peers[from := Peer(nextSerial, from, SpeakerName(name, from), answer, answerSdp, [], false)];
    CandidatesAppend(role, myTeam, myName, created, nextSerial + 1, from, name, to, ices, answerSdp);
    assert [] + ices == ices;
    assert AppendCandidates(created, from, ices)
        == peers[from := Peer(nextSerial, from, SpeakerName(name, from), answer, answerSdp, ices, false)];
  }

  /**
   * A negotiation with a team `from` that has no entry yet, for any role
   * and any accepted address: after the offer, the answer and the
   * candidates (repeats included) exactly one entry is added. It is the
   * connection the offer created, with the offer's sender and name, the
   * answer last handed to setRemoteDescription, the generated answer as
   * local description and exactly those candidates; every other entry is as it
   * was. A candidate that arrives before the offer finds no entry, is lost,
   * and changes nothing.
   */
  lemma NegotiationLeavesOneEntry(role: Role, myTeam: string, myName: string, peers: map<string, Peer>, nextSerial: nat,
                                  from: string, name: string, to: string,
                                  early: string, offer: string, answer: string, ices: seq<string>, answerSdp: string)
    requires from !in peers && Accepts(role, myTeam, to)
    ensures Receive(role, myTeam, myName, peers, nextSerial, IceTo(to, early, from, name), answerSdp).outcome == UnknownPeer
    ensures var envs := [Envelope(Offer(offer), to, from, name), Envelope(Answer(answer), to, from, name)]
                        + Candidates(from, name, to, ices);
      && ReceiveAll(role, myTeam, myName, peers, nextSerial, [IceTo(to, early, from, name)] + envs, answerSdp)
           == ReceiveAll(role, myTeam, myName, peers, nextSerial, envs, answerSdp)
      && ReceiveAll(role, myTeam, myName, peers, nextSerial, envs, answerSdp)
           == (peers[from := Peer(nextSerial, from, SpeakerName(name, from), answer, answerSdp, ices, false)], nextSerial + 1)
  {
    var tail := Candidates(from, name, to, ices);
    var envs := [Envelope(Offer(offer), to, from, name), Envelope(Answer(answer), to, from, name)] + tail;
    var created := peers[from := Peer(nextSerial, from, SpeakerName(name, from), answer, answerSdp, [], false)];
    assert Receive(role, myTeam, myName, peers, nextSerial, IceTo(to, early, from, name), answerSdp).outcome == UnknownPeer
        && ReceiveAll(role, myTeam, myName, peers, nextSerial, [IceTo(to, early, from, name)] + envs, answerSdp)
           == ReceiveAll(role, myTeam, myName, peers, nextSerial, envs, answerSdp) by {
      EarlyCandidateLost(role, myTeam, myName, peers, nextSerial, from, name, to, early, envs, answerSdp);
    }
    assert ReceiveAll(role, myTeam, myName, peers, nextSerial, envs, answerSdp)
        == ReceiveAll(role, myTeam, myName, created, nextSerial + 1, tail, answerSdp) by {
      OfferThenAnswer(role, myTeam, myName, peers, nextSerial, from, name, to, offer, answer, tail, answerSdp);
    }
    NewEntryTakesCandidates(role, myTeam, myName, peers, nextSerial, from, name, to, answer, ices, answerSdp);
  }
}
