/**
 * Event sequences run on a fresh radio, with what the handlers' contracts
 * alone let a caller conclude about the outcome.
 */
module Scenarios {
  import opened Routing
  import opened Signaling
  import opened Transmission
  import opened TeamRadio

  /**
   * A driver of team `team` gets an offer from its team, presses the talk
   * key and releases it before the cue has completed. When the cue then
   * completes, the talk key is up and yet the track is attached to the
   * team's connection.
   */
  method ReleaseBeforeCue(team: string, offer: string, answerSdp: string) returns (talking: bool, attached: bool)
    ensures !talking && attached
  {
    var radio := new Radio(Driver, team, "driver");
    var outcome := radio.OnMessage(Envelope(Offer(offer), team, team, ""), answerSdp);
    assert team in radio.peers && radio.senders == {};
    radio.KeyDown(Space);
    radio.KeyUp(Space);
    ghost var released := radio.TxState();
    assert team in released.peers && team !in released.senders;
    radio.CueEnded();
    AttachedAfterSend(released, Driver, team, radio.speakTeam, team);
    talking := radio.pttActive;
    attached := team in radio.peers && radio.peers[team].audioAttached;
  }
}
