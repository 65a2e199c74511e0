/**
 * The ambiance mixer: a fixed list of sound tracks whose volumes the sliders
 * edit one track at a time.
 */
module Mixer {

  /** A sound track record; its icon is a rendering detail and not modelled. */
  datatype Track = Track(id: string, name: string, color: string, volume: real)

  /** The five tracks the page starts with. */
  const InitialTracks: seq<Track> := [
    Track("rain", "Rain", "from-blue-400 to-blue-600", 0.3),
    Track("forest", "Forest", "from-green-400 to-green-600", 0.0),
    Track("cafe", "Cafe", "from-orange-400 to-orange-600", 0.0),
    Track("waves", "Waves", "from-cyan-400 to-cyan-600", 0.0),
    Track("white", "White Noise", "from-gray-400 to-gray-600", 0.0)
  ]

  predicate UniqueIds(tracks: seq<Track>)
  {
    forall i, j :: 0 <= i < j < |tracks| ==> tracks[i].id != tracks[j].id
  }

  predicate HasId(tracks: seq<Track>, id: string)
  {
    exists i :: 0 <= i < |tracks| && tracks[i].id == id
  }

  /**
   * updateVolume: every record whose id matches gets the new volume, every
   * other record is kept as it is; length and order are preserved. The
   * volume is stored as given, without clamping.
   */
  function UpdateVolume(tracks: seq<Track>, id: string, volume: real): (r: seq<Track>)
    ensures |r| == |tracks|
    ensures forall i :: 0 <= i < |r| ==>
              r[i].id == tracks[i].id && r[i].name == tracks[i].name && r[i].color == tracks[i].color
    ensures forall i :: 0 <= i < |r| && tracks[i].id == id ==> r[i].volume == volume
    ensures forall i :: 0 <= i < |r| && tracks[i].id != id ==> r[i] == tracks[i]
  {
    if tracks == [] then []
    else
      var head := if tracks[0].id == id then tracks[0].(volume := volume) else tracks[0];
      var rest := UpdateVolume(tracks[1..], id, volume);
      assert forall i :: 0 < i < |tracks| ==> ([head] + rest)[i] == rest[i - 1] && tracks[1..][i - 1] == tracks[i];
      [head] + rest
  }

  /** An unknown id leaves the tracks unchanged. */
  lemma UpdateUnknownId(tracks: seq<Track>, id: string, volume: real)
    requires !HasId(tracks, id)
    ensures UpdateVolume(tracks, id, volume) == tracks
  {
  }

  /**
   * With unique ids, an update of a present id changes that one record's
   * volume and nothing else.
   */
  lemma UpdateSingleRecord(tracks: seq<Track>, k: nat, volume: real)
    requires UniqueIds(tracks) && k < |tracks|
    ensures UpdateVolume(tracks, tracks[k].id, volume) == tracks[k := tracks[k].(volume := volume)]
  {
  }

  /** The ids, and so their uniqueness, are never changed by an update. */
  lemma UpdateKeepsUniqueIds(tracks: seq<Track>, id: string, volume: real)
    requires UniqueIds(tracks)
    ensures UniqueIds(UpdateVolume(tracks, id, volume))
  {
  }

  /** A later update of the same track overrides an earlier one; repeating one changes nothing. */
  lemma UpdateLastWins(tracks: seq<Track>, id: string, v: real, w: real)
    ensures UpdateVolume(UpdateVolume(tracks, id, v), id, w) == UpdateVolume(tracks, id, w)
  {
  }

  /** Updates of different tracks commute. */
  lemma UpdatesCommute(tracks: seq<Track>, id1: string, v1: real, id2: string, v2: real)
    requires id1 != id2
    ensures UpdateVolume(UpdateVolume(tracks, id1, v1), id2, v2)
         == UpdateVolume(UpdateVolume(tracks, id2, v2), id1, v1)
  {
  }

  predicate VolumesInRange(tracks: seq<Track>)
  {
    forall i :: 0 <= i < |tracks| ==> 0.0 <= tracks[i].volume <= 1.0
  }

  /**
   * Volumes stay within the slider's 0..1 range only because the slider
   * supplies such values: the update itself does not clamp.
   */
  lemma UpdateRange(tracks: seq<Track>, id: string, volume: real)
    requires VolumesInRange(tracks) && HasId(tracks, id)
    ensures VolumesInRange(UpdateVolume(tracks, id, volume)) <==> 0.0 <= volume <= 1.0
  {
  }

  /** The initial tracks: five, with distinct ids and volumes in range. */
  lemma InitialTracksWellFormed()
    ensures |InitialTracks| == 5 && UniqueIds(InitialTracks) && VolumesInRange(InitialTracks)
  {
  }
}
