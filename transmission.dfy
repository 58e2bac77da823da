/**
 * What the talk key does to the registry, stated on values: `Send` is what
 * one run of sendAudio does to the peer entries and the `senders` record,
 * `Stop` what one run of stopSending does. The class methods that perform
 * these loops are proved to have exactly these effects.
 */
module Transmission {
  import opened Routing
  import opened Signaling

  /** The part of the radio state the talk key touches: the registry and the ids that ever had a track added. */
  datatype Tx = Tx(peers: map<string, Peer>, senders: set<string>)

  /** Every entry whose local track is attached has its id recorded in `senders`. */
  ghost predicate Tracked(tx: Tx)
  {
    forall id :: id in tx.peers && tx.peers[id].audioAttached ==> id in tx.senders
  }

  /** No envelope attaches a track, so the record of senders stays complete and the registry well formed. */
  lemma ReceiveKeepsTracked(role: Role, myTeam: string, myName: string, tx: Tx, nextSerial: nat,
                            env: Envelope, answerSdp: string)
    requires Registered(tx.peers, nextSerial) && Tracked(tx)
    ensures var r := Receive(role, myTeam, myName, tx.peers, nextSerial, env, answerSdp);
      Registered(r.peers, r.nextSerial) && Tracked(Tx(r.peers, tx.senders))
  {
    ReceiveKeepsRegistry(role, myTeam, myName, tx.peers, nextSerial, env, answerSdp);
  }

  /**
   * A team whose sender is recorded never gets the track on the connection a
   * new offer creates: sendAudio checks only the record, which still holds
   * the team's id.
   */
  lemma RecordedTeamStaysSilent(role: Role, myTeam: string, myName: string, tx: Tx, nextSerial: nat,
                                env: Envelope, answerSdp: string, speakTeam: string)
    requires env.body.Offer? && Accepts(role, myTeam, env.to) && env.from in tx.senders
    ensures var r := Receive(role, myTeam, myName, tx.peers, nextSerial, env, answerSdp);
      var after := Tx(r.peers, tx.senders);
      && !Send(after, role, myTeam, speakTeam).peers[env.from].audioAttached
      && !Send(Stop(after), role, myTeam, speakTeam).peers[env.from].audioAttached
  {
    var r := Receive(role, myTeam, myName, tx.peers, nextSerial, env, answerSdp);
    var after := Tx(r.peers, tx.senders);
    AttachedAfterSend(after, role, myTeam, speakTeam, env.from);
    AttachedAfterSend(Stop(after), role, myTeam, speakTeam, env.from);
  }

  /**
   * A new offer from a team whose connection carries the track replaces
   * that connection without closing it. The dropped connection keeps the
   * track; stopSending, which walks only the registry, never reaches it,
   * because no entry is that connection any more; and the new connection
   * never gets the track, because the team's sender is still recorded.
   */
  lemma ReplacedConnectionKeepsTrack(role: Role, myTeam: string, myName: string, tx: Tx, nextSerial: nat,
                                     env: Envelope, answerSdp: string, speakTeam: string)
    requires Registered(tx.peers, nextSerial) && Tracked(tx)
    requires env.body.Offer? && Accepts(role, myTeam, env.to)
    requires env.from in tx.peers && tx.peers[env.from].audioAttached
    ensures var r := Receive(role, myTeam, myName, tx.peers, nextSerial, env, answerSdp);
      var after := Tx(r.peers, tx.senders);
      && r.retired == [tx.peers[env.from]] && r.retired[0].audioAttached
      && (forall id :: id in Stop(after).peers ==> Stop(after).peers[id].serial != r.retired[0].serial)
      && !Send(after, role, myTeam, speakTeam).peers[env.from].audioAttached
      && !Send(Stop(after), role, myTeam, speakTeam).peers[env.from].audioAttached
  {
    var r := Receive(role, myTeam, myName, tx.peers, nextSerial, env, answerSdp);
    var after := Tx(r.peers, tx.senders);
    OfferReplacesEntry(role, myTeam, myName, tx.peers, nextSerial, env, answerSdp);
    ReceiveKeepsRegistry(role, myTeam, myName, tx.peers, nextSerial, env, answerSdp);
    RecordedTeamStaysSilent(role, myTeam, myName, tx, nextSerial, env, answerSdp, speakTeam);
  }

  /**
   * The entries sendAudio adds the track to: those the outbound policy
   * selects and whose id has no recorded sender yet.
   */
  function Targets(tx: Tx, role: Role, myTeam: string, speakTeam: string): (t: set<string>)
    ensures t <= tx.peers.Keys && t !! tx.senders
  {
    set id | id in tx.peers && id !in tx.senders && OutboundEligible(role, myTeam, speakTeam, id)
  }

  /**
   * The targets by role and selection: a driver's own team only; nobody for
   * a director on "none"; every entry without a recorded sender on "all";
   * otherwise the selected team only.
   */
  lemma TargetsByRole(tx: Tx, role: Role, myTeam: string, speakTeam: string)
    ensures var t := Targets(tx, role, myTeam, speakTeam);
      && (role == Driver ==> t == if myTeam in tx.peers && myTeam !in tx.senders then {myTeam} else {})
      && (role == Director && speakTeam == Nobody ==> t == {})
      && (role == Director && speakTeam == All ==> t == tx.peers.Keys - tx.senders)
      && (role == Director && speakTeam !in {Nobody, All} ==>
            t == if speakTeam in tx.peers && speakTeam !in tx.senders then {speakTeam} else {})
  {
  }

  /** The entries of `peers`, with the track attached to those named in `t`. */
  function AttachTo(peers: map<string, Peer>, t: set<string>): (r: map<string, Peer>)
  {
    map id | id in peers :: if id in t then peers[id].(audioAttached := true) else peers[id]
  }

  /** The entries of `peers` with the track removed from those named in `done`. */
  function DetachFrom(peers: map<string, Peer>, done: set<string>): (r: map<string, Peer>)
  {
    map id | id in peers :: if id in done then peers[id].(audioAttached := false) else peers[id]
  }

  /** One run of sendAudio. */
  function Send(tx: Tx, role: Role, myTeam: string, speakTeam: string): (r: Tx)
    ensures SameConnections(tx.peers, r.peers) && tx.senders <= r.senders
    ensures forall id :: id in tx.peers && tx.peers[id].audioAttached ==> r.peers[id].audioAttached
    ensures forall id :: id in r.peers && r.peers[id] != tx.peers[id] ==>
      id !in tx.senders && OutboundEligible(role, myTeam, speakTeam, id) &&
      r.peers[id] == tx.peers[id].(audioAttached := true)
    ensures forall id :: id in r.senders - tx.senders ==> id in tx.peers && r.peers[id].audioAttached
    ensures Tracked(tx) ==> Tracked(r)
  {
    var t := Targets(tx, role, myTeam, speakTeam);
    Tx(AttachTo(tx.peers, t), tx.senders + t)
  }

  /** A state that attached exactly the targets and recorded them is the result of `Send`. */
  lemma SendFrom(tx: Tx, role: Role, myTeam: string, speakTeam: string, after: Tx)
    requires after.peers == AttachTo(tx.peers, Targets(tx, role, myTeam, speakTeam))
    requires after.senders == tx.senders + Targets(tx, role, myTeam, speakTeam)
    ensures after == Send(tx, role, myTeam, speakTeam)
  {
  }

  /**
   * After sendAudio an entry carries the track iff it carried it before, or
   * the outbound policy selects it and no sender was recorded for its id.
   */
  lemma AttachedAfterSend(tx: Tx, role: Role, myTeam: string, speakTeam: string, id: string)
    requires id in tx.peers
    ensures id in Send(tx, role, myTeam, speakTeam).peers
    ensures Send(tx, role, myTeam, speakTeam).peers[id].audioAttached <==>
      tx.peers[id].audioAttached || (id !in tx.senders && OutboundEligible(role, myTeam, speakTeam, id))
  {
  }

  /** One run of stopSending: every audio sender of every entry is removed; `senders` is left as it was. */
  function Stop(tx: Tx): (r: Tx)
    ensures SameConnections(tx.peers, r.peers) && r.senders == tx.senders
    ensures forall id :: id in r.peers ==> !r.peers[id].audioAttached && r.peers[id] == tx.peers[id].(audioAttached := false)
    ensures Tracked(r)
  {
    Tx(DetachFrom(tx.peers, tx.peers.Keys), tx.senders)
  }

  /** After one run of sendAudio, another run with the same selection changes nothing. */
  lemma SendIdempotent(tx: Tx, role: Role, myTeam: string, speakTeam: string)
    ensures Send(Send(tx, role, myTeam, speakTeam), role, myTeam, speakTeam) == Send(tx, role, myTeam, speakTeam)
  {
    var once := Send(tx, role, myTeam, speakTeam);
    assert Targets(once, role, myTeam, speakTeam) == {};
    assert AttachTo(once.peers, {}) == once.peers;
  }

  /** `n` runs of sendAudio in a row, as `n` completed cues would start them. */
  function SendTimes(tx: Tx, role: Role, myTeam: string, speakTeam: string, n: nat): (r: Tx)
  {
    if n == 0 then tx else Send(SendTimes(tx, role, myTeam, speakTeam, n - 1), role, myTeam, speakTeam)
  }

  /**
   * However many times sendAudio runs with one selection, each eligible
   * entry gets the track once: the result is that of a single run.
   */
  lemma {:induction false} SendRepeated(tx: Tx, role: Role, myTeam: string, speakTeam: string, n: nat)
    requires n >= 1
    ensures SendTimes(tx, role, myTeam, speakTeam, n) == Send(tx, role, myTeam, speakTeam)
  {
    if n > 1 {
      SendRepeated(tx, role, myTeam, speakTeam, n - 1);
      SendIdempotent(tx, role, myTeam, speakTeam);
    }
  }

  /** stopSending leaves `senders` as it was, so it never makes an entry a target again. */
  lemma StopKeepsTargets(tx: Tx, role: Role, myTeam: string, speakTeam: string)
    ensures Targets(Stop(tx), role, myTeam, speakTeam) == Targets(tx, role, myTeam, speakTeam)
  {
  }

  /**
   * Press, release, press again with the same selection: the second press
   * attaches nothing, because every id it would select was recorded by the
   * first. The entries stay without a track.
   */
  lemma SecondPressSilent(tx: Tx, role: Role, myTeam: string, speakTeam: string)
    ensures var released := Stop(Send(tx, role, myTeam, speakTeam));
      Send(released, role, myTeam, speakTeam) == released &&
      forall id :: id in released.peers ==> !released.peers[id].audioAttached
  {
    var sent := Send(tx, role, myTeam, speakTeam);
    var released := Stop(sent);
    StopKeepsTargets(sent, role, myTeam, speakTeam);
    SendIdempotent(tx, role, myTeam, speakTeam);
    assert Targets(released, role, myTeam, speakTeam) == {};
    assert AttachTo(released.peers, {}) == released.peers;
  }

  /**
   * A director speaking to one team, with nothing attached or recorded yet:
   * holding the key attaches the track to that team's entry and to no
   * other; releasing it leaves no entry with a track.
   */
  lemma DirectorSpeaksToOneTeam(tx: Tx, myTeam: string, team: string)
    requires team !in {All, Nobody} && tx.senders == {}
    requires forall id :: id in tx.peers ==> !tx.peers[id].audioAttached
    ensures var sent := Send(tx, Director, myTeam, team);
      && (forall id :: id in sent.peers ==> (sent.peers[id].audioAttached <==> id == team))
      && (forall id :: id in Stop(sent).peers ==> !Stop(sent).peers[id].audioAttached)
  {
    var sent := Send(tx, Director, myTeam, team);
    forall id | id in sent.peers
      ensures sent.peers[id].audioAttached <==> id == team
    {
      AttachedAfterSend(tx, Director, myTeam, team, id);
    }
  }
}
