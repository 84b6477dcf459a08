/**
 * Floor routing for one session: the mixer's floor and the one transcription stream
 * (backend/app/modules/voice/plane.py).
 */
module VoicePlane {
  import opened Common
  import Mixer
  import Pcm

  datatype State = State(floorHolder: Option<UserId>, sttOwner: Option<UserId>, peers: set<UserId>)

  /** A grant opens one stream for the new holder; if the provider refuses, there is none. */
  function Granted(p: State, u: UserId, opens: bool): State {
    p.(floorHolder := Some(u), sttOwner := if opens then Some(u) else None)
  }

  function Released(p: State): State { p.(floorHolder := None, sttOwner := None) }

  function PeerAdded(p: State, u: UserId): State { PeerRemoved(p, u).(peers := p.peers + {u}) }

  /** A peer that goes takes its transcription stream with it. */
  function PeerRemoved(p: State, u: UserId): State {
    if u !in p.peers then p
    else p.(peers := p.peers - {u}, sttOwner := if p.sttOwner == Some(u) then None else p.sttOwner)
  }

  /** Teardown closes the stream and every connection; nothing here takes the floor back. */
  function Closed(p: State): State { State(p.floorHolder, None, {}) }

  class Plane {
    const mixer: Mixer.SessionMixer
    var sttOwner: Option<UserId>
    var peers: set<UserId>

    ghost predicate Valid()
      reads this, mixer
    {
      mixer.Valid() && mixer.cursors.Keys == peers
    }

    ghost function View(): State
      reads this, mixer
    {
      State(mixer.floorHolder, sttOwner, peers)
    }

    constructor ()
      ensures Valid() && fresh(mixer) && View() == State(None, None, {})
    {
      mixer := new Mixer.SessionMixer();
      sttOwner, peers := None, {};
    }

    method GrantFloor(u: UserId, opens: bool)
      requires Valid()
      modifies this`sttOwner, mixer
      ensures Valid() && View() == Granted(old(View()), u, opens)
      ensures mixer.floorHolder == Some(u) && sttOwner == (if opens then Some(u) else None) && peers == old(peers)
    {
      mixer.SetFloor(Some(u));
      OpenStt(u, opens);
    }

    method ReleaseFloor()
      requires Valid()
      modifies this`sttOwner, mixer
      ensures Valid() && View() == Released(old(View()))
      ensures mixer.floorHolder == None && sttOwner == None && peers == old(peers)
    {
      mixer.SetFloor(None);
      CloseStt();
    }

    method OpenStt(u: UserId, opens: bool)
      modifies this`sttOwner
      ensures sttOwner == if opens then Some(u) else None
    {
      CloseStt();
      sttOwner := if opens then Some(u) else None;
    }

    method CloseStt()
      modifies this`sttOwner
      ensures sttOwner == None
    {
      sttOwner := None;
    }

    method AddPeer(u: UserId)
      requires Valid()
      modifies this, mixer
      ensures Valid() && View() == PeerAdded(old(View()), u)
      ensures peers == old(peers) + {u} && mixer.floorHolder == old(mixer.floorHolder)
      ensures sttOwner == if u in old(peers) && old(sttOwner) == Some(u) then None else old(sttOwner)
      ensures u in mixer.log.at && mixer.log.at[u] == Mixer.Cursor(|mixer.log.moderator|, |mixer.log.human|)
    {
      RemovePeer(u);
      peers := peers + {u};
      mixer.Attach(u);
    }

    method RemovePeer(u: UserId)
      requires Valid()
      modifies this, mixer
      ensures Valid() && View() == PeerRemoved(old(View()), u)
      ensures peers == old(peers) - {u} && mixer.floorHolder == old(mixer.floorHolder)
      ensures sttOwner == if u in old(peers) && old(sttOwner) == Some(u) then None else old(sttOwner)
      ensures if u in old(peers) then u !in mixer.log.at else mixer.log == old(mixer.log)
    {
      if u !in peers { return; }
      peers := peers - {u};
      mixer.Detach(u);
      if sttOwner == Some(u) { CloseStt(); }
    }

    /**
     * Sound arrives from somebody's microphone: it is relayed to the room while they have the floor, transcribed if the
     * stream is theirs, and otherwise dropped.
     */
    method Receive(u: UserId, pcm: seq<Pcm.byte>) returns (transcribed: bool)
      requires Valid()
      modifies mixer
      ensures Valid() && View() == old(View())
      ensures mixer.log == old(mixer.log).(human := mixer.log.human)
      ensures mixer.log.human == old(mixer.log).human + (if mixer.floorHolder == Some(u) then pcm else [])
      ensures transcribed <==> mixer.floorHolder == Some(u) == sttOwner
    {
      if mixer.floorHolder != Some(u) { return false; }
      mixer.PushHuman(pcm);
      transcribed := sttOwner == Some(u);
    }

    /** Barge-in: what has not been played is dropped as far as the mixer drops it. */
    method Interrupt()
      requires Valid()
      modifies mixer
      ensures Valid() && View() == old(View())
    {
      mixer.ClearModerator();
    }

    method Close()
      requires Valid()
      modifies this, mixer
      ensures Valid() && View() == Closed(old(View()))
      ensures mixer.moderator == [] && mixer.human == [] && mixer.cursors == map[]
    {
      Interrupt();
      CloseStt();
      while peers != {}
        invariant Valid() && sttOwner == None && mixer.floorHolder == old(mixer.floorHolder)
        decreases peers
      {
        var u :| u in peers;
        RemovePeer(u);
      }
      mixer.Empty();
    }
  }
}
