# Team radio: routing, registry and push-to-talk bookkeeping

This project models the client of a push-to-talk team radio, `radio.js`.
Each browser is either a team's **driver** or the race **director**. The
browsers exchange WebRTC offers, answers and ICE candidates through a relay.
Each connection is registered under the remote team's id, and holding Space
sends the microphone track to the peers the role selects. Every accepted
remote track gets a visualizer entry. A remove timer deletes that entry after
a silent stretch.

The model has five modules.

- `Routing` (routing.dfy) holds the pure decisions:
  - the message filter;
  - the speaker name;
  - the inbound policy, which says whether a track is played and under which presentation key;
  - the outbound policy, which says which entries sendAudio selects.
- `Signaling` (signaling.dfy) holds the relay protocol and the connection registry.
  - A connection is a `Peer` record. Its serial number stands for the identity of the browser object.
  - `Receive` is what the message handler does with one envelope. `ReceiveAll` handles a sequence of them.
- `Transmission` (transmission.dfy) holds `Send` and `Stop`. They are one run of sendAudio and one run of stopSending, stated on the registry and the `senders` record.
- `Presentation` (presentation.dfy) holds the visualizer registry together with the pending timeouts.
  - `Activate`, `Frame`, `Remove` and `Fire` are activateVisualizer, the timer branch of one animation frame, removeVisualizer and a firing timer.
  - `Quiet` is the frame's silence test.
- `TeamRadio` (radio.dfy) holds the class `Radio`. It carries the module-level state and one method per event handler.
  - Each method is proved to change the state exactly as the matching function above says.
  - The invariant `Valid` says that the registry is well formed, every attached track is recorded in `senders`, and the timer bookkeeping is coherent.
  - The constructor establishes `Valid`, and every event handler keeps it.
  - `ClearTimeout`, a step inside `ActivateVisualizer` and `DrawFrame`, keeps `Valid` as well.
  - Two methods are steps inside other handlers and carry no `Valid` contract: `CreatePeerConnection` (inside `OnMessage`) and `RemoveVisualizer`.
  - `RemoveVisualizer` can break `Valid` on its own: removing an entry whose timer is pending leaves a timer for a missing key. `RemoveTimerFired` removes the timer first and keeps `Valid`.

`Scenarios` (scenarios.dfy) runs one event sequence on a fresh radio.

The model follows the code as written, including these behaviours:

- An offer always creates a new connection and replaces any entry the sender already had.
  - The replaced connection is not closed and keeps its track. The model moves it to `retired`.
  - stopSending walks only the registry, so it never reaches the replaced connection. If that connection carried the track, the microphone stays live towards it.
  - The team's id stays in `senders`, so sendAudio never attaches the track to the new connection (`ReplacedConnectionKeepsTrack`).
- An answer or a candidate from a team without an entry makes the lookup fail. The model gives the `UnknownPeer` outcome and changes nothing. A candidate that arrives before the offer is therefore lost; nothing buffers it.
- The cue that starts a transmission calls sendAudio when it completes, and it does not re-check the talk key. If Space is released before the cue ends, the track is attached anyway (`ReleaseBeforeCue`).
- stopSending never clears `senders`. A second press with the same selection attaches nothing (`SecondPressSilent`).
- Reactivating an entry clears its timer but keeps the timer's handle stored. Quiet frames then arm no new timer until a loud frame nulls the handle (`RefreshedEntryOutlivesSilence`, `LoudFrameRearms`).
- The silence test `sum / length < 2` is modelled in integers as `sum < 2 * length`.
  - `QuietIsMeanBelowLevel` proves the two agree on every non-empty frame.
  - An empty frame is never quiet, because its mean is not a number and the comparison is false.

## Model

| member | source | states |
|---|---|---|
| Routing.Accepts | radio.js:77 | A director handles every envelope. A driver handles an envelope iff it is addressed to its own team or to "all". |
| Routing.SpeakerName | radio.js:74 | The shown name is the display name when that is non-empty, otherwise the sender's team. It is empty only when both are empty. |
| Routing.InboundKey | radio.js:124-145 | A director plays a track iff the listen selection is "all" or the track's team, with key `id`. A driver plays a track iff it comes from its own team. The driver's key is the team, then `_`, then the speaker name. |
| Routing.DriverKeysSeparateSpeakers | radio.js:139-143 | Two speakers heard by a driver get the same key iff their names are equal. |
| Routing.DirectorListenSelection | radio.js:128-135 | With "all" a director plays every team. With a team `x` selected, it refuses every other team and plays `x`. |
| Routing.OutboundEligible | radio.js:214-230 | A driver selects only its own team. A director on "none" selects nobody and on "all" selects everybody. Otherwise a director selects only the chosen team. |
| Signaling.Receive | radio.js:69-105 | One envelope through the message handler. It is filtered iff the role does not accept its address. It creates a connection iff it is an accepted offer; then the sender's entry is overwritten, the old one is retired, the serial advances and one answer (`AnswerTo`, radio.js:86-93) is sent. An accepted answer or candidate fails iff the sender has no entry. Any other outcome sends nothing, retires nothing and keeps the serial. A filtered, failed or unhandled envelope leaves the registry as it was. Candidates a connection discovers are sent as `IceTo` (radio.js:114-120). |
| Signaling.RegisteredKept | radio.js:97-104 | Changing what is handed to existing connections keeps the registry well formed. |
| Signaling.RegisterFresh | radio.js:147 | Registering a newly created connection under its id keeps the registry well formed, whether or not it replaces an entry. The new connection is later than every earlier one. |
| Signaling.FilterByAddress | radio.js:77 | A driver changes nothing and sends nothing for an envelope addressed elsewhere, whatever its type. A director filters nothing out. |
| Signaling.OfferReplacesEntry | radio.js:80-94 | An accepted offer registers a connection newer than every other under the sender's team. Any old entry there is replaced and other entries stay. The connection has no candidates and no track. Exactly one answer is sent, to the sender and from the local team. The replaced connection, if any, is retired as it was, track included. |
| Signaling.LookupTouchesOnlySender | radio.js:97-104 | An answer or candidate from a team with no entry fails and changes nothing. Otherwise only the sender's connection changes, never which connection is registered. An answer is handed to it as remote description, and a candidate is appended to its candidates; everything else on it is kept. Nothing is sent and nothing is retired. |
| Signaling.ReceiveKeepsRegistry | radio.js:69-105 | No envelope leaves the registry ill formed, and no envelope attaches a track. |
| Signaling.Candidates | radio.js:112-122 | The candidate envelopes a team sends: one per candidate, in order. Each is addressed to the receiving team and signed with the sending team and user name. |
| Signaling.AppendCandidatesSplit | radio.js:102-104 | Appending no candidates changes nothing, and appending two runs one after the other appends their concatenation. |
| Signaling.CandidatesFirst | radio.js:102-104 | A non-empty run of accepted candidates from a registered team: the first is appended, then the rest are handled. |
| Signaling.CandidatesAppend | radio.js:102-104 | A run of accepted candidates is appended to the sender's connection in arrival order, repeats included. No other entry, no key and no serial changes. |
| Signaling.EarlyCandidateLost | radio.js:102-104 | A candidate from a team with no entry fails, changes nothing and sends nothing, so the envelopes after it are handled as if it never came. |
| Signaling.OfferThenAnswer | radio.js:80-99 | An offer followed by an answer from the same team leaves that team's new connection with the answer handed to its setRemoteDescription, and the handling continues from there. Whether the browser accepts that answer is not modelled. |
| Signaling.NewEntryTakesCandidates | radio.js:102-104 | The candidates after the answer all land on the connection the offer created, which then holds exactly them. |
| Signaling.NegotiationLeavesOneEntry | radio.js:80-104 | For any role, recipient and team without an entry: a candidate before the offer fails. After the offer, the answer and later candidates the registry gains exactly one entry, the connection the offer created, holding exactly the later candidates. |
| Transmission.ReceiveKeepsTracked | radio.js:69-105 | After any envelope the registry stays well formed, and every attached track stays recorded in `senders`. |
| Transmission.RecordedTeamStaysSilent | radio.js:214-230 | After an accepted offer from a team whose sender is recorded, sendAudio, before or after stopSending, never attaches the track to the new connection. |
| Transmission.ReplacedConnectionKeepsTrack | radio.js:147 | An offer from a team whose connection carries the track retires that connection with its track. No entry after stopSending is that connection. sendAudio, before or after stopSending, never attaches the track to the new connection. |
| Transmission.Targets | radio.js:214-230 | sendAudio only attaches to registered entries that have no recorded sender. |
| Transmission.TargetsByRole | radio.js:214-230 | The attached entries for each role and selection: the driver's own team, nobody, every unrecorded entry, or the selected team only. |
| Transmission.Send | radio.js:211-231 | sendAudio keeps the same connections and only adds to `senders`. It never removes a track. It changes only entries that are eligible and unrecorded, and it changes them only by attaching the track. Every newly recorded id is attached. |
| Transmission.AttachedAfterSend | radio.js:214-230 | After sendAudio an entry carries the track iff it carried it before, or it is eligible and had no recorded sender. |
| Transmission.Stop | radio.js:233-241 | stopSending removes the track from every entry, whatever the role or selection. It keeps the same connections and leaves `senders` unchanged. |
| Transmission.SendIdempotent | radio.js:214-230 | A second run of sendAudio with the same selection changes nothing. |
| Transmission.SendRepeated | radio.js:199-231 | Any number of runs with the same selection give the result of a single run, so each id is attached at most once. |
| Transmission.StopKeepsTargets | radio.js:233-241 | stopSending does not change which entries sendAudio would target. |
| Transmission.SecondPressSilent | radio.js:211-241 | Press, release, press again: the second press attaches nothing and every entry stays without a track. |
| Transmission.DirectorSpeaksToOneTeam | radio.js:224-241 | From a clean state, a director speaking to one team attaches the track to that team's entry only. Releasing removes it. |
| Presentation.Sum | radio.js:307 | The sum of the bins is at most 255 per bin. A non-empty frame summing to zero is all zeros. |
| Presentation.Quiet | radio.js:307-308 | An empty frame is never quiet. |
| Presentation.SumOfZeros | radio.js:307 | A frame of zero bins sums to zero. |
| Presentation.SilenceIsQuiet | radio.js:307-308 | A non-empty all-zero frame is quiet. |
| Presentation.QuietIsMeanBelowLevel | radio.js:307-308 | The integer test agrees with the real-valued test `mean < 2` on every non-empty frame. |
| Presentation.Cancel | radio.js:313 | Clearing a handle removes exactly that pending timer. A null handle changes nothing. |
| Presentation.Activate | radio.js:244-252 | An absent key gets a new entry with a null handle. A present key keeps its entry, and the timer of its stored handle is cleared. |
| Presentation.Frame | radio.js:308-315 | A quiet frame arms a new timer only when the entry holds no handle; the entry then holds the new handle and keeps its name. A loud frame clears the held timer and nulls the handle, keeping the name and the handle counter. Other entries are untouched. |
| Presentation.Remove | radio.js:336-341 | An absent key changes nothing. Otherwise exactly that entry is deleted. |
| Presentation.Fire | radio.js:336-341 | A firing timer is no longer pending and its key's entry is gone. Every other entry, every other pending timer and the handle counter are unchanged. |
| Presentation.ActivateKeepsCoherent | radio.js:244-252 | Activation keeps the timer bookkeeping coherent. Afterwards no timer is pending for the activated key. |
| Presentation.FrameKeepsCoherent | radio.js:308-315 | A frame keeps the timer bookkeeping coherent, so an entry has at most one pending timer. |
| Presentation.FireKeepsCoherent | radio.js:336-341 | A firing timer keeps the timer bookkeeping coherent. |
| Presentation.SilentSpeakerRemoved | radio.js:308-311 | A new speaker whose first frame is quiet gets a pending timer, and that timer removes the entry when it fires. |
| Presentation.RefreshedEntryOutlivesSilence | radio.js:245-246 | Reactivating an entry with an armed timer leaves the handle stored and no timer pending for it. A quiet frame then changes nothing. |
| Presentation.LoudFrameRearms | radio.js:308-315 | After that reactivation a loud frame nulls the handle. The next quiet frame arms a new timer, and its firing removes the entry. |
| TeamRadio.Radio.constructor | radio.js:3-12 | Start-up: the chosen identity, the talk key up, listen "all", speak "none", and empty registries. |
| TeamRadio.Radio.OnMessage | radio.js:69-105 | The message handler changes the registry, the serial counter, the retired connections and the sent envelopes exactly as `Receive` says, and keeps `Valid`. |
| TeamRadio.Radio.CreatePeerConnection | radio.js:109-149 | A new connection with a fresh serial, no candidates and no track is registered under the team. Any entry it replaces is appended to `retired`. |
| TeamRadio.Radio.OnIceCandidate | radio.js:112-122 | A discovered candidate is sent to the connection's team. The end of gathering sends nothing. `Valid` is kept. |
| TeamRadio.Radio.OnTrack | radio.js:124-145 | A refused track leaves the visualizers and timers unchanged. An accepted one activates its key and draws its first frame. |
| TeamRadio.Radio.SetListenTeam | radio.js:153-155 | The listen selection becomes the chosen team. `Valid` is kept. |
| TeamRadio.Radio.SetSpeakTeam | radio.js:157-160 | The speak selection becomes the chosen team. `Valid` is kept. |
| TeamRadio.Radio.KeyDown | radio.js:165-177 | Space with the key up sets it down and starts one cue. Space with the key down does nothing. KeyZ flips the broadcast flag. `Valid` is kept. |
| TeamRadio.Radio.KeyUp | radio.js:179-186 | Space release sets the key up and runs `Stop`. Other keys change nothing. |
| TeamRadio.Radio.CueEnded | radio.js:199-203 | A completed cue runs `Send` whatever the talk key's state. |
| TeamRadio.Radio.SendAudio | radio.js:211-231 | The loop over the registry ends in the state `Send` gives. |
| TeamRadio.Radio.StopSending | radio.js:233-241 | The loop over the registry ends in the state `Stop` gives. The retired connections are not touched and keep their tracks. |
| TeamRadio.Radio.ActivateVisualizer | radio.js:244-252 | Activation followed by the animation's first frame. |
| TeamRadio.Radio.ClearTimeout | radio.js:246 | The pending timers lose exactly the cleared handle, and `Valid` is kept. |
| TeamRadio.Radio.DrawFrame | radio.js:300-315 | The timer branch of a frame changes the state as `Frame` says and keeps `Valid`. |
| TeamRadio.Radio.RemoveVisualizer | radio.js:336-341 | The visualizers change as `Remove` says. |
| TeamRadio.Radio.RemoveTimerFired | radio.js:336-341 | A firing pending timer changes the state as `Fire` says and keeps `Valid`. |
| Scenarios.ReleaseBeforeCue | radio.js:165-203 | A driver with a connection to its team presses and releases Space before the cue ends. When the cue ends, the key is up and the track is attached. |

## Left out

- The relay socket, JSON parsing and serialisation, and logging are left out. Sent envelopes are appended to `outbox`.
- Description and candidate handling inside a connection is opaque.
  - The generated answer is a parameter.
  - Descriptions and candidates are stored as text.
  - Failures of setRemoteDescription, createAnswer or addIceCandidate are not modelled.
- Each handler runs atomically. The interleaving of events at the `await`s of the message handler is not modelled.
- A failed lookup on answer or candidate throws inside the async handler. The model records it as the `UnknownPeer` outcome with no state change.
- getUserMedia, the local stream, audio playback and the cue's audio are left out. A cue's completion, whether by ending, by an error or by a refused play, is the `CueEnded` event.
- The per-connection list of senders is one flag, `audioAttached`. The `senders` record holds the ids only, not the sender objects addTrack returns.
- Canvas drawing, the analyser, AudioContext creation and closing, and the visualizer's DOM box are left out.
- `requestAnimationFrame` is left out. Each later frame is a `DrawFrame` event on the current entry.
- A reactivated entry starts a further animation loop in the source, and every loop keeps the entry object it started with. Loops that outlive a removal and re-creation write the timer handle of a stale object. The model has one entry per key and does not capture this.
- Time is left out, and with it the 700 ms delay of the remove timer. A timer firing is the `RemoveTimerFired` event for a pending handle, and handles are numbered as the model chooses.
- The UI text of updateUI and the selectors' DOM wiring are left out. The selectors are modelled as the two setters.
- `isBroadcastMode` is flipped by KeyZ and nothing else reads it.
- Roles other than driver and director are not modelled.
- `Receive`, `Send` and `Activate` treat every team id and presentation key as an ordinary key. In the source, `peers`, `senders` and `visualizers` are plain objects. An id that names an `Object.prototype` member ("constructor", "toString", "valueOf") finds `senders[id]` and `visualizers[id]` truthy from the start, so sendAudio never attaches to it and activateVisualizer takes the refresh path. The id "__proto__" makes `peers[id] = pc` set the prototype instead of adding an entry.
- The readyState logging on keydown is left out.
- Frames of any length are accepted, although the analyser yields 128 bins.
