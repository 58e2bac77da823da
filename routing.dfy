/**
 * The role-based routing decisions of the team radio: which signaling
 * envelopes a process handles, which inbound tracks it plays (and under which
 * presentation key), and which peers receive the local microphone track.
 * All three read the process-wide role, team and director selections at the
 * moment they are asked, so they are pure functions of those values.
 */
module Routing {
  import opened Wrappers

  /** The role chosen at start-up; it never changes afterwards. */
  datatype Role = Driver | Director

  /** The broadcast address of envelopes and the "every team" selection. */
  const All: string := "all"
  /** The director speak selection that sends to nobody. */
  const Nobody: string := "none"

  /**
   * The message filter: a process that is not the director returns early on
   * every envelope addressed neither to its own team nor to "all"; the
   * director goes on with every envelope.
   */
  function Accepts(role: Role, myTeam: string, to: string): (r: bool)
    ensures role == Director ==> r
    ensures role == Driver ==> (r <==> to in {myTeam, All})
  {
    !(role != Director && to != myTeam && to != All)
  }

  /**
   * The name shown for the sender of an envelope: its display name, or its
   * team identifier when the display name is empty.
   */
  function SpeakerName(fromName: string, from: string): (r: string)
    ensures r in {fromName, from}
    ensures fromName != "" ==> r == fromName
    ensures r == "" ==> fromName == "" && from == ""
  {
    if fromName != "" then fromName else from
  }

  /** The presentation key a driver uses for a speaker heard on team `id`. */
  function DriverKey(id: string, speakerName: string): (key: string)
  {
    id + "_" + speakerName
  }

  /**
   * The inbound routing policy, asked when a remote track arrives on the
   * connection registered for `id`: None when the track is not played,
   * otherwise the presentation key under which it is shown.
   */
  function InboundKey(role: Role, listenTeam: string, myTeam: string, id: string, speakerName: string): (r: Option<string>)
    ensures r.Some? <==> (role == Director && (listenTeam == All || listenTeam == id)) || (role == Driver && id == myTeam)
    ensures r.Some? && role == Director ==> r.value == id
    ensures r.Some? && role == Driver ==>
      |r.value| == |myTeam| + 1 + |speakerName| &&
      r.value[..|myTeam|] == myTeam && r.value[|myTeam|] == '_' && r.value[|myTeam| + 1..] == speakerName
  {
    if role == Director then
      if listenTeam == All || listenTeam == id then Some(id) else None
    else if role == Driver && id == myTeam then
      Some(DriverKey(id, speakerName))
    else
      None
  }

  /**
   * Two speakers heard by a driver get distinct presentation keys exactly
   * when their names differ: the key gives back the speaker's name.
   */
  lemma DriverKeysSeparateSpeakers(myTeam: string, a: string, b: string)
    ensures InboundKey(Driver, All, myTeam, myTeam, a) == InboundKey(Driver, All, myTeam, myTeam, b) <==> a == b
  {
    var ka, kb := InboundKey(Driver, All, myTeam, myTeam, a), InboundKey(Driver, All, myTeam, myTeam, b);
    if ka == kb {
      assert a == ka.value[|myTeam| + 1..] == kb.value[|myTeam| + 1..] == b;
    }
  }

  /**
   * A director's listen selection is consulted on every arrival: after
   * switching it to a team `x`, a track from any other team is refused,
   * and with "all" every team's track is played.
   */
  lemma DirectorListenSelection(myTeam: string, x: string, id: string, name: string)
    ensures InboundKey(Director, All, myTeam, id, name) == Some(id)
    ensures x != All && id != x ==> InboundKey(Director, x, myTeam, id, name) == None
    ensures InboundKey(Director, id, myTeam, id, name) == Some(id)
  {
  }

  /**
   * The outbound routing policy of one peer entry `id`, as the loop of
   * sendAudio decides it: a driver sends to its own team only; a director
   * sends to nobody on "none", to everybody on "all", and otherwise to the
   * selected team.
   */
  function OutboundEligible(role: Role, myTeam: string, speakTeam: string, id: string): (r: bool)
    ensures role == Driver ==> (r <==> id == myTeam)
    ensures role == Director && speakTeam == Nobody ==> !r
    ensures role == Director && speakTeam == All ==> r
    ensures role == Director && speakTeam !in {Nobody, All} ==> (r <==> id == speakTeam)
  {
    if role == Driver then
      id == myTeam
    else if speakTeam == Nobody then
      false
    else
      speakTeam == All || speakTeam == id
  }
}
