/**
 The volume scaling of linux_audio_volume_alsa_mixer.c between 0..100 and the mixer's own range:
 which of the two round trips is lossless, for every range.
 */
module Mixer {
  import opened Arithmetic

  const VOLUME_MAX: int := 100

  /** Division as in C: towards zero. */
  function Quotient(x: int, d: int): int
    requires d > 0
  {
    if x >= 0 then x / d else 0 - (0 - x) / d
  }

  function Set(min: int, max: int, volume: int): int {
    min + Quotient(volume * (max - min) + VOLUME_MAX / 2, VOLUME_MAX)
  }

  function Get(min: int, max: int, raw: int): int
    requires max > min
  {
    Quotient((raw - min) * VOLUME_MAX + Quotient(max - min, 2), max - min)
  }

  /** The raw step of a volume, between the half steps around it. */
  lemma SetIs(min: int, max: int, volume: int)
    requires max > min && 0 <= volume <= VOLUME_MAX
    ensures var product := volume * (max - min);
      var step := Set(min, max, volume) - min;
      0 <= product <= 100 * (max - min) && 0 <= step <= max - min && 100 * step - 50 <= product < 100 * step + 50
  {
    var span := max - min;
    var product := volume * span;
    assert product >= 0;
    assert (100 - volume) * span >= 0;
    assert product <= 100 * span;
  }

  lemma GetIs(min: int, max: int, raw: int, volume: int)
    requires max > min && min <= raw
    requires (max - min) * volume <= (raw - min) * 100 + (max - min) / 2 < (max - min) * volume + (max - min)
    ensures Get(min, max, raw) == volume
  {
    DivIs((raw - min) * 100 + (max - min) / 2, max - min, volume);
  }

  /** The ends of the volume scale are the ends of the range. */
  lemma EndsMeet(min: int, max: int)
    requires max > min
    ensures Set(min, max, 0) == min && Set(min, max, VOLUME_MAX) == max
    ensures Get(min, max, min) == 0 && Get(min, max, max) == VOLUME_MAX
  {
    var span := max - min;
    DivIs(50, 100, 0);
    DivIs(100 * span + 50, 100, span);
    assert span * 0 == 0 && span * 100 == 100 * span;
    GetIs(min, max, min, 0);
    GetIs(min, max, max, 100);
  }

  ghost predicate VolumeSurvives(min: int, max: int)
    requires max > min
  {
    forall volume :: 0 <= volume <= VOLUME_MAX ==> Get(min, max, Set(min, max, volume)) == volume
  }

  ghost predicate RawSurvives(min: int, max: int)
    requires max > min
  {
    forall raw :: min <= raw <= max ==> Set(min, max, Get(min, max, raw)) == raw
  }

  lemma VolumeBack(min: int, max: int, volume: int)
    requires max - min >= 100 && 0 <= volume <= VOLUME_MAX
    ensures Get(min, max, Set(min, max, volume)) == volume
  {
    var span := max - min;
    SetIs(min, max, volume);
    var raw := Set(min, max, volume);
    assert span * volume == volume * span;
    if span == 100 { assert raw - min == volume; }
    GetIs(min, max, raw, volume);
  }

  lemma RawBack(min: int, max: int, raw: int)
    requires 0 < max - min <= 100 && min <= raw <= max
    ensures Set(min, max, Get(min, max, raw)) == raw
  {
    var span := max - min;
    var x := (raw - min) * 100 + span / 2;
    var g := x / span;
    assert x == span * g + x % span;
    assert g * span == span * g;
    if span == 100 { assert g == raw - min by { DivIs(x, 100, raw - min); } }
    DivIs(g * span + 50, 100, raw - min);
  }

  /** If every volume gets a raw level of its own, the range is at least as long as the scale. */
  lemma {:induction false} DistinctLevels(min: int, max: int, volume: int)
    requires max > min && 0 <= volume <= VOLUME_MAX && VolumeSurvives(min, max)
    ensures Set(min, max, volume) >= min + volume
  {
    hide Get, Set;
    if volume == 0 {
      EndsMeet(min, max);
    } else {
      DistinctLevels(min, max, volume - 1);
      SetGrows(min, max, volume - 1);
      assert Get(min, max, Set(min, max, volume)) == volume;
      assert Get(min, max, Set(min, max, volume - 1)) == volume - 1;
    }
  }

  lemma SetGrows(min: int, max: int, volume: int)
    requires max > min && 0 <= volume < VOLUME_MAX
    ensures Set(min, max, volume) <= Set(min, max, volume + 1)
  {
    var span := max - min;
    assert (volume + 1) * span == volume * span + span;
    SetIs(min, max, volume);
    SetIs(min, max, volume + 1);
  }

  lemma {:induction false} DistinctVolumes(min: int, max: int, raw: int)
    requires max > min && min <= raw <= max && RawSurvives(min, max)
    ensures Get(min, max, raw) >= raw - min
    decreases raw - min
  {
    hide Get, Set;
    if raw == min {
      EndsMeet(min, max);
    } else {
      DistinctVolumes(min, max, raw - 1);
      GetGrows(min, max, raw - 1);
      assert Set(min, max, Get(min, max, raw)) == raw;
      assert Set(min, max, Get(min, max, raw - 1)) == raw - 1;
    }
  }

  lemma GetGrows(min: int, max: int, raw: int)
    requires max > min && min <= raw < max
    ensures Get(min, max, raw) <= Get(min, max, raw + 1)
  {
    var span := max - min;
    var x := (raw - min) * 100 + span / 2;
    DivGrows(x, x + 100, span);
  }

  /** Setting and reading back every volume is lossless exactly if the range spans 100 steps or more. */
  lemma VolumeSurvivesIff(min: int, max: int)
    requires max > min
    ensures VolumeSurvives(min, max) <==> max - min >= 100
  {
    if max - min >= 100 {
      forall volume | 0 <= volume <= VOLUME_MAX
        ensures Get(min, max, Set(min, max, volume)) == volume
      {
        VolumeBack(min, max, volume);
      }
    } else if VolumeSurvives(min, max) {
      DistinctLevels(min, max, VOLUME_MAX);
      EndsMeet(min, max);
    }
  }

  /** Reading and setting back every raw level is lossless exactly if the range spans 100 steps or fewer. */
  lemma RawSurvivesIff(min: int, max: int)
    requires max > min
    ensures RawSurvives(min, max) <==> max - min <= 100
  {
    if max - min <= 100 {
      forall raw | min <= raw <= max
        ensures Set(min, max, Get(min, max, raw)) == raw
      {
        RawBack(min, max, raw);
      }
    } else if RawSurvives(min, max) {
      DistinctVolumes(min, max, max);
      EndsMeet(min, max);
    }
  }

  /** One step short of the threshold, the middle of the scale is already lost. */
  lemma ThresholdIsTight(min: int)
    ensures Get(min, min + 99, Set(min, min + 99, 50)) == 51
  {
    DivIs(50 * 99 + 50, 100, 50);
    DivIs(50 * 100 + 49, 99, 51);
  }
}
