/**
 * The radio process: the module-level state of the client and the event
 * handlers that change it, each run to completion before the next event.
 * Results of browser calls that the model does not look into (the answer
 * description a connection generates, the candidates it discovers, the
 * analyser's frequency bins) arrive as parameters of the events.
 */
module TeamRadio {
  import opened Wrappers
  import opened Routing
  import opened Signaling
  import opened Transmission
  import opened Presentation

  /** The key codes the key handlers react to. */
  const Space: string := "Space"
  const KeyZ: string := "KeyZ"

  class Radio {
    /** The identity chosen on the start button; fixed afterwards. */
    const role: Role
    const myTeam: string
    const myName: string

    var pttActive: bool
    var isBroadcastMode: bool
    /** The director's listen and speak selections. */
    var listenTeam: string
    var speakTeam: string

    /** The connection registry, keyed by remote team. */
    var peers: map<string, Peer>
    /** The ids a sender was ever recorded for. */
    var senders: set<string>
    /** The serial number the next created connection gets. */
    var nextSerial: nat
    /**
     * The connections an offer dropped from the registry, oldest first. They
     * are never closed: each keeps the tracks it carried.
     */
    var retired: seq<Peer>
    /** Every envelope sent on the relay, oldest first. */
    var outbox: seq<Envelope>
    /** Cues that have started playing and not yet completed. */
    var pendingCues: nat

    var visualizers: map<string, Visualizer>
    /** The pending timeouts: handle to the key their callback removes. */
    var timers: map<nat, string>
    var nextTimer: nat

    /** The transmission part of the state. */
    function TxState(): (tx: Tx)
      reads this
    {
      Tx(peers, senders)
    }

    /** The presentation part of the state. */
    function PanelState(): (p: Panel)
      reads this
    {
      Panel(visualizers, timers, nextTimer)
    }

    /**
     * Each entry is the connection created for its key, serial numbers are
     * distinct and below `nextSerial`, an attached track is always recorded
     * in `senders`, and the timer bookkeeping is coherent.
     */
    ghost predicate Valid()
      reads this
    {
      && Registered(peers, nextSerial)
      && Tracked(TxState())
      && Coherent(PanelState())
    }

    /** The state after the start button: defaults of the module variables, nothing registered. */
    constructor (role: Role, myTeam: string, myName: string)
      ensures Valid()
      ensures this.role == role && this.myTeam == myTeam && this.myName == myName
      ensures !pttActive && !isBroadcastMode && listenTeam == All && speakTeam == Nobody
      ensures peers == map[] && senders == {} && retired == [] && outbox == [] && pendingCues == 0
      ensures visualizers == map[] && timers == map[]
    {
      this.role, this.myTeam, this.myName := role, myTeam, myName;
      pttActive, isBroadcastMode := false, false;
      listenTeam, speakTeam := All, Nobody;
      peers, senders, retired, nextSerial, outbox, pendingCues := map[], {}, [], 0, [], 0;
      visualizers, timers, nextTimer := map[], map[], 1;
    }

    /**
     * The relay's message handler. `answerSdp` is the description the new
     * connection generates when the envelope is an offer.
     */
    method OnMessage(env: Envelope, answerSdp: string) returns (outcome: Outcome)
      requires Valid()
      modifies this`peers, this`nextSerial, this`retired, this`outbox
      ensures Valid()
      ensures var r := Receive(role, myTeam, myName, old(peers), old(nextSerial), env, answerSdp);
        && outcome == r.outcome && peers == r.peers && nextSerial == r.nextSerial
        && retired == old(retired) + r.retired && outbox == old(outbox) + r.sent
    {
      ReceiveKeepsTracked(role, myTeam, myName, TxState(), nextSerial, env, answerSdp);
      ghost var r := Receive(role, myTeam, myName, peers, nextSerial, env, answerSdp);
      var speakerName := SpeakerName(env.fromName, env.from);
      if role != Director && env.to != myTeam && env.to != All {
        assert r == Reception(Filtered, peers, nextSerial, [], []);
        outcome := Filtered;
      } else {
        match env.body {
          case Offer(offer) =>
            ghost var created := PeerForOffer(nextSerial, env, answerSdp);
            assert r == Reception(PeerCreated, peers[env.from := created], nextSerial + 1,
                                  [AnswerTo(env, answerSdp, myTeam, myName)], Displaced(peers, env.from));
            CreatePeerConnection(env.from, speakerName);
            peers := peers[env.from := peers[env.from].(remoteDescription := offer)];
            peers := peers[env.from := peers[env.from].(localDescription := answerSdp)];
            assert peers == r.peers;
            outbox := outbox + [Envelope(Answer(answerSdp), env.from, myTeam, myName)];
            outcome := PeerCreated;
          case Answer(answer) =>
            if env.from !in peers {
              assert r == Reception(UnknownPeer, peers, nextSerial, [], []);
              outcome := UnknownPeer;
            } else {
              assert r.peers == peers[env.from := peers[env.from].(remoteDescription := answer)];
              assert r == Reception(AnswerApplied, r.peers, nextSerial, [], []);
              peers := peers[env.from := peers[env.from].(remoteDescription := answer)];
              outcome := AnswerApplied;
            }
          case Ice(ice) =>
            if env.from !in peers {
              assert r == Reception(UnknownPeer, peers, nextSerial, [], []);
              outcome := UnknownPeer;
            } else {
              assert r.peers == peers[env.from := peers[env.from].(candidates := peers[env.from].candidates + [ice])];
              assert r == Reception(CandidateAdded, r.peers, nextSerial, [], []);
              peers := peers[env.from := peers[env.from].(candidates := peers[env.from].candidates + [ice])];
              outcome := CandidateAdded;
            }
          case Other(_) =>
            assert r == Reception(Unhandled, peers, nextSerial, [], []);
            outcome := Unhandled;
        }
      }
      assert TxState() == Tx(r.peers, old(senders));
    }

    /**
     * createPeerConnection: a new connection for team `id`, whose track
     * handler will present the speaker as `speakerName`, is registered under
     * `id`, replacing any entry there; the replaced connection is not
     * closed and moves to `retired`.
     */
    method CreatePeerConnection(id: string, speakerName: string)
      modifies this`peers, this`nextSerial, this`retired
      ensures nextSerial == old(nextSerial) + 1
      ensures peers == old(peers)[id := Peer(old(nextSerial), id, speakerName, "", "", [], false)]
      ensures retired == old(retired) + Displaced(old(peers), id)
    {
      var pc := Peer(nextSerial, id, speakerName, "", "", [], false);
      retired := retired + Displaced(peers, id);
      nextSerial := nextSerial + 1;
      peers := peers[id := pc];
    }

    /**
     * The candidate handler of the connection created for team `id`: a
     * discovered candidate is sent to that team; the end of gathering
     * (no candidate) sends nothing.
     */
    method OnIceCandidate(id: string, candidate: Option<string>)
      requires Valid()
      modifies this`outbox
      ensures Valid()
      ensures candidate.None? ==> outbox == old(outbox)
      ensures candidate.Some? ==> outbox == old(outbox) + [IceTo(id, candidate.value, myTeam, myName)]
    {
      if candidate.Some? {
        outbox := outbox + [Envelope(Ice(candidate.value), id, myTeam, myName)];
      }
    }

    /**
     * The track handler of the connection created for team `id` with the
     * speaker name captured then. The routing policy is asked with the
     * selections of this moment; an accepted track activates its
     * visualizer, whose animation draws its first frame (`samples`) at once.
     */
    method OnTrack(id: string, speakerName: string, samples: seq<Byte>)
      requires Valid()
      modifies this`visualizers, this`timers, this`nextTimer
      ensures Valid()
      ensures InboundKey(role, listenTeam, myTeam, id, speakerName).None? ==> PanelState() == old(PanelState())
      ensures InboundKey(role, listenTeam, myTeam, id, speakerName).Some? ==>
        var key := InboundKey(role, listenTeam, myTeam, id, speakerName).value;
        PanelState() == Frame(Activate(old(PanelState()), key, speakerName), key, samples)
    {
      if role == Director {
        if listenTeam == All || listenTeam == id {
          ActivateVisualizer(id, speakerName, samples);
        }
        return;
      }
      if role == Driver && id == myTeam {
        ActivateVisualizer(id + "_" + speakerName, speakerName, samples);
      }
    }

    /** The director's listen selector. */
    method SetListenTeam(team: string)
      requires Valid()
      modifies this`listenTeam
      ensures Valid()
      ensures listenTeam == team
    {
      listenTeam := team;
    }

    /** The director's speak selector. */
    method SetSpeakTeam(team: string)
      requires Valid()
      modifies this`speakTeam
      ensures Valid()
      ensures speakTeam == team
    {
      speakTeam := team;
    }

    /**
     * The keydown handler: Space while the talk key is up starts a
     * transmission (the cue starts playing; its completion is `CueEnded`),
     * Space while it is down does nothing, and KeyZ flips the broadcast flag.
     */
    method KeyDown(code: string)
      requires Valid()
      modifies this`pttActive, this`pendingCues, this`isBroadcastMode
      ensures Valid()
      ensures code == Space && !old(pttActive) ==> pttActive && pendingCues == old(pendingCues) + 1
      ensures code != Space || old(pttActive) ==> pttActive == old(pttActive) && pendingCues == old(pendingCues)
      ensures isBroadcastMode == (if code == KeyZ then !old(isBroadcastMode) else old(isBroadcastMode))
    {
      if code == Space && !pttActive {
        pttActive := true;
        pendingCues := pendingCues + 1;
      }
      if code == KeyZ {
        isBroadcastMode := !isBroadcastMode;
      }
    }

    /** The keyup handler: releasing Space ends the transmission at once. */
    method KeyUp(code: string)
      requires Valid()
      modifies this`pttActive, this`peers
      ensures Valid()
      ensures code == Space ==> !pttActive && TxState() == Stop(old(TxState()))
      ensures code != Space ==> pttActive == old(pttActive) && peers == old(peers)
    {
      if code == Space {
        pttActive := false;
        StopSending();
      }
    }

    /**
     * A cue completes (it ended, failed to load or could not play): the
     * local track is sent, whether or not the talk key is still down.
     */
    method CueEnded()
      requires Valid() && pendingCues > 0
      modifies this`pendingCues, this`peers, this`senders
      ensures Valid()
      ensures pendingCues == old(pendingCues) - 1
      ensures TxState() == Send(old(TxState()), role, myTeam, speakTeam)
    {
      pendingCues := pendingCues - 1;
      SendAudio();
    }

    /**
     * sendAudio: every entry the outbound policy selects gets the local
     * track, unless a sender was already recorded for its id.
     */
    method SendAudio()
      requires Valid()
      modifies this`peers, this`senders
      ensures Valid()
      ensures TxState() == Send(old(TxState()), role, myTeam, speakTeam)
    {
      ghost var before := TxState();
      ghost var t := Targets(before, role, myTeam, speakTeam);
      var attached, recorded := peers, senders;
      var todo := attached.Keys;
      while todo != {}
        invariant todo <= before.peers.Keys == attached.Keys
        invariant recorded == before.senders + (t - todo)
        invariant forall id :: id in attached ==>
          attached[id] == if id in t && id !in todo then before.peers[id].(audioAttached := true) else before.peers[id]
        decreases todo
      {
        var id :| id in todo;
        if OutboundEligible(role, myTeam, speakTeam, id) && id !in recorded {
          recorded := recorded + {id};
          attached := attached[id := attached[id].(audioAttached := true)];
        }
        todo := todo - {id};
      }
      assert attached == AttachTo(before.peers, t);
      peers, senders := attached, recorded;
      SendFrom(before, role, myTeam, speakTeam, TxState());
      RegisteredKept(before.peers, peers, nextSerial);
    }

    /**
     * stopSending: every entry loses its audio sender; `senders` is not
     * touched, and the connections in `retired` keep theirs.
     */
    method StopSending()
      requires Valid()
      modifies this`peers
      ensures Valid()
      ensures TxState() == Stop(old(TxState()))
      ensures retired == old(retired)
    {
      ghost var before := peers;
      var detached := peers;
      var todo := detached.Keys;
      while todo != {}
        invariant todo <= before.Keys == detached.Keys
        invariant forall id :: id in detached ==>
          detached[id] == if id in todo then before[id] else before[id].(audioAttached := false)
        decreases todo
      {
        var id :| id in todo;
        if detached[id].audioAttached {
          detached := detached[id := detached[id].(audioAttached := false)];
        }
        todo := todo - {id};
      }
      assert detached == DetachFrom(before, before.Keys);
      peers := detached;
      RegisteredKept(before, peers, nextSerial);
    }

    /** activateVisualizer followed by the first, synchronous frame of its animation. */
    method ActivateVisualizer(key: string, speakerName: string, samples: seq<Byte>)
      requires Valid()
      modifies this`visualizers, this`timers, this`nextTimer
      ensures Valid()
      ensures PanelState() == Frame(Activate(old(PanelState()), key, speakerName), key, samples)
    {
      ghost var before := PanelState();
      if key in visualizers {
        ClearTimeout(visualizers[key].removeTimer);
      } else {
        visualizers := visualizers[key := Visualizer(speakerName, None)];
      }
      assert PanelState() == Activate(before, key, speakerName);
      ActivateKeepsCoherent(before, key, speakerName);
      DrawFrame(key, samples);
    }

    /** clearTimeout on a handle held by an entry. */
    method ClearTimeout(handle: Option<nat>)
      requires Valid()
      modifies this`timers
      ensures Valid()
      ensures timers == Cancel(old(timers), handle)
    {
      if handle.Some? {
        timers := timers - {handle.value};
      }
    }

    /** The timer branch of one animation frame of `key`, on the frame's frequency bins. */
    method DrawFrame(key: string, samples: seq<Byte>)
      requires Valid()
      modifies this`visualizers, this`timers, this`nextTimer
      ensures Valid()
      ensures PanelState() == Frame(old(PanelState()), key, samples)
    {
      FrameKeepsCoherent(PanelState(), key, samples);
      if key !in visualizers {
        return;
      }
      var v := visualizers[key];
      if Quiet(samples) {
        if v.removeTimer.None? {
          var handle := nextTimer;
          nextTimer := nextTimer + 1;
          timers := timers[handle := key];
          visualizers := visualizers[key := v.(removeTimer := Some(handle))];
        }
      } else {
        ClearTimeout(v.removeTimer);
        visualizers := visualizers[key := v.(removeTimer := None)];
      }
    }

    /** removeVisualizer. */
    method RemoveVisualizer(key: string)
      modifies this`visualizers
      ensures PanelState() == Remove(old(PanelState()), key)
    {
      if key !in visualizers {
        return;
      }
      visualizers := visualizers - {key};
    }

    /** A pending remove timer fires and calls removeVisualizer on its key. */
    method RemoveTimerFired(handle: nat)
      requires Valid() && handle in timers
      modifies this`visualizers, this`timers
      ensures Valid()
      ensures PanelState() == Fire(old(PanelState()), handle)
    {
      FireKeepsCoherent(PanelState(), handle);
      var key := timers[handle];
      timers := timers - {handle};
      RemoveVisualizer(key);
    }
  }
}
