/**
 * The Quran reader: a searchable list of surahs and, once a surah is open,
 * verse-by-verse recitation in the chosen reciter's voice, advancing to the
 * next verse whenever one ends.
 */
module QuranReader {
  import opened Wrappers
  import opened Text
  import opened Lists

  /** A surah of the list: its number, Arabic name and verse count. */
  datatype Surah = Surah(id: int, arabicName: string, verses: int)

  /** `fullSurahList`. */
  const FullSurahList: seq<Surah> := [
    Surah(1, "الفاتحة", 7),
    Surah(2, "البقرة", 286),
    Surah(18, "الكهف", 110),
    Surah(36, "يس", 83),
    Surah(112, "الإخلاص", 4)
  ]

  /** `SHEIKH_AUDIO_MAP`: reciter name to the audio service's reciter id. */
  const SheikhAudioMap: map<string, string> := map[
    "مشاري العفاسي" := "ar.alafasy",
    "عبد الباسط عبد الصمد" := "ar.abdulsamad",
    "محمد صديق المنشاوي" := "ar.minshawi",
    "محمود خليل الحصري" := "ar.husary",
    "ياسر الدوسري" := "ar.dossari",
    "ماهر المعيقلي" := "ar.mahermuaiqly"
  ]

  /** `SHEIKH_LIST`: the map's keys in the order they were written. */
  const SheikhList: seq<string> := [
    "مشاري العفاسي", "عبد الباسط عبد الصمد", "محمد صديق المنشاوي",
    "محمود خليل الحصري", "ياسر الدوسري", "ماهر المعيقلي"
  ]

  /** The reciter list offers exactly the reciters of the map, each once. */
  lemma SheikhListIsMapKeys()
    ensures forall s :: s in SheikhList <==> s in SheikhAudioMap
    ensures forall i, j :: 0 <= i < j < |SheikhList| ==> SheikhList[i] != SheikhList[j]
  {
  }

  /** The reciter the reader opens with: the user's Quran reciter, or the first of the list when none is set. */
  function InitialSheikh(preferred: string): (s: string)
    ensures s != ""
    ensures preferred != "" ==> s == preferred
    ensures preferred == "" ==> s == SheikhList[0] && s in SheikhAudioMap
  {
    if preferred != "" then preferred else SheikhList[0]
  }

  // ------------------------------------------------------------ audio URLs

  /** `SHEIKH_AUDIO_MAP[sheikh] || 'ar.alafasy'`: always one of the map's ids. */
  function ReciterId(sheikh: string): (id: string)
    ensures id in SheikhAudioMap.Values
    ensures sheikh in SheikhAudioMap ==> id == SheikhAudioMap[sheikh]
    ensures sheikh !in SheikhAudioMap ==> id == "ar.alafasy"
  {
    if sheikh in SheikhAudioMap && SheikhAudioMap[sheikh] != "" then SheikhAudioMap[sheikh]
    else
      assert SheikhAudioMap["مشاري العفاسي"] == "ar.alafasy";
      "ar.alafasy"
  }

  /** `selectedSurah.id * 1000 + verseNum - 1000`. */
  function VerseId(surahId: int, verseNum: int): int {
    surahId * 1000 + verseNum - 1000
  }

  /**
   * For verse numbers 1 to 1000 the id is `(surah - 1) * 1000 + verse` and
   * gives both numbers back, so two different verses of the list never share
   * an id.
   */
  lemma {:induction false} VerseIdDecodes(surahId: int, verseNum: int)
    requires 1 <= verseNum <= 1000
    ensures VerseId(surahId, verseNum) == (surahId - 1) * 1000 + verseNum
    ensures (VerseId(surahId, verseNum) - 1) / 1000 + 1 == surahId
    ensures (VerseId(surahId, verseNum) - 1) % 1000 + 1 == verseNum
  {
    var x := VerseId(surahId, verseNum) - 1;
    assert x == (surahId - 1) * 1000 + (verseNum - 1);
  }

  lemma VerseIdInjective(s1: int, v1: int, s2: int, v2: int)
    requires 1 <= v1 <= 1000 && 1 <= v2 <= 1000
    requires VerseId(s1, v1) == VerseId(s2, v2)
    ensures s1 == s2 && v1 == v2
  {
    VerseIdDecodes(s1, v1);
    VerseIdDecodes(s2, v2);
  }

  const AudioBase: string := "https://cdn.islamic.network/quran/audio/128/"

  /** The recitation URL of a verse in a reciter's voice. */
  function AudioUrl(sheikh: string, surahId: int, verseNum: int): string {
    AudioBase + ReciterId(sheikh) + "/" + IntToString(VerseId(surahId, verseNum)) + ".mp3"
  }

  /** The URL names the reciter's id right after the fixed prefix, so different reciters give different URLs. */
  lemma AudioUrlNamesReciter(sheikh: string, surahId: int, verseNum: int)
    ensures var u := AudioUrl(sheikh, surahId, verseNum);
      && |u| > |AudioBase| + |ReciterId(sheikh)|
      && u[..|AudioBase|] == AudioBase
      && u[|AudioBase|..|AudioBase| + |ReciterId(sheikh)|] == ReciterId(sheikh)
      && u[|AudioBase| + |ReciterId(sheikh)|] == '/'
  {
    var id := ReciterId(sheikh);
    var rest := "/" + IntToString(VerseId(surahId, verseNum)) + ".mp3";
    assert AudioUrl(sheikh, surahId, verseNum) == AudioBase + id + rest;
  }

  /** Reciter ids contain no '/', so two reciters with different ids never share a URL. */
  lemma AudioUrlDistinguishesReciters(a: string, b: string, surahId: int, verseNum: int)
    requires ReciterId(a) != ReciterId(b)
    ensures AudioUrl(a, surahId, verseNum) != AudioUrl(b, surahId, verseNum)
  {
    AudioUrlNamesReciter(a, surahId, verseNum);
    AudioUrlNamesReciter(b, surahId, verseNum);
    IdsHaveNoSlash(a);
    IdsHaveNoSlash(b);
  }

  /** A reciter id contains no '/'. */
  lemma IdsHaveNoSlash(sheikh: string)
    ensures '/' !in ReciterId(sheikh)
  {
    if sheikh in SheikhAudioMap {
      assert sheikh in SheikhList;
    }
  }

  // ---------------------------------------------------------------- search

  /** The search predicate `s => s.arabicName.includes(term)`. */
  function NameIncludes(term: string): Surah -> bool {
    (s: Surah) => Contains(s.arabicName, term)
  }

  /** The surah list under the search box: the surahs whose Arabic name includes the term, in list order. */
  function VisibleSurahs(term: string): (r: seq<Surah>)
    ensures forall s :: s in r <==> s in FullSurahList && Contains(s.arabicName, term)
  {
    Filter(FullSurahList, NameIncludes(term))
  }

  /** An empty search shows the whole list, in order. */
  lemma EmptySearchShowsAll()
    ensures VisibleSurahs("") == FullSurahList
  {
    forall s: Surah | s in FullSurahList ensures NameIncludes("")(s) {
      ContainsEmpty(s.arabicName);
    }
    FilterKeepsAll(FullSurahList, NameIncludes(""));
  }

  // ------------------------------------------------------------- sequencing

  /** `activeVerse || 1`: where playback starts. */
  function StartVerse(active: Option<int>): (v: int)
    ensures active.Some? && active.value != 0 ==> v == active.value
    ensures active.None? || active.value == 0 ==> v == 1
  {
    if active.Some? && active.value != 0 then active.value else 1
  }

  /**
   * The active verse after the track ends: the next verse while the current
   * one is below the surah's count, nothing (playback stops) otherwise.
   */
  function AfterEnded(surah: Option<Surah>, active: Option<int>): (r: Option<int>)
    ensures r.Some? ==>
      (&& surah.Some? && active.Some? && active.value != 0
       && r.value == active.value + 1 && r.value <= surah.value.verses)
    ensures r.None? ==> surah.None? || active.None? || active.value == 0 || active.value >= surah.value.verses
  {
    if surah.Some? && active.Some? && active.value != 0 && active.value < surah.value.verses
    then Some(active.value + 1)
    else None
  }

  /** The active verse after `k` tracks have ended in a row. */
  function EndedTimes(surah: Option<Surah>, active: Option<int>, k: nat): Option<int>
    decreases k
  {
    if k == 0 then active else EndedTimes(surah, AfterEnded(surah, active), k - 1)
  }

  /**
   * Playback started at verse `v` of a surah recites `v`, `v + 1`, ... up to
   * its last verse, one per ended track, and stops after the last one.
   */
  lemma {:induction false} RecitesToTheEnd(surah: Surah, v: int, k: nat)
    requires 1 <= v <= surah.verses
    ensures v + k <= surah.verses ==> EndedTimes(Some(surah), Some(v), k) == Some(v + k)
    ensures v + k == surah.verses + 1 ==> EndedTimes(Some(surah), Some(v), k) == None
    decreases k
  {
    if k > 0 {
      if v < surah.verses {
        RecitesToTheEnd(surah, v + 1, k - 1);
      }
    }
  }

  // --------------------------------------------------------------- playback

  /**
   * The part of the reader's state that playback concerns: the flag the
   * controls show, the active verse, the source of the current audio
   * element, and whether a `play()` on that element has yet to settle.
   */
  datatype Playback = Playback(isPlaying: bool, activeVerse: Option<int>, audioSource: Option<string>, playPending: bool)

  /**
   * `playVerse(v)` with surah `surahId` open and `sheikh` the reciter its
   * render saw: the verse becomes active, its recitation is loaded into the
   * current element and a `play()` on it is pending. Assigning the source
   * aborts a `play()` still pending from before, and that one's `catch`
   * clears the playing flag.
   */
  function Play(p: Playback, sheikh: string, surahId: int, v: int): Playback {
    Playback(p.isPlaying && !p.playPending, Some(v), Some(AudioUrl(sheikh, surahId, v)), true)
  }

  /**
   * The effect on `[selectedSurah, currentSheikh]` running again: its cleanup
   * pauses the current element, which rejects a `play()` still pending so
   * that its `catch` clears the playing flag, and the next run installs a
   * fresh element with no source. A playing flag with nothing pending is
   * left set although nothing sounds any more.
   */
  function ReplaceAudio(p: Playback): Playback {
    Playback(p.isPlaying && !p.playPending, p.activeVerse, None, false)
  }

  /**
   * The reciter picker's click, as written: while playing, the handler calls
   * the `playVerse` of its own render, which loads the verse in the previous
   * reciter's voice; when the reciter really changed, the effect then runs
   * again and its cleanup aborts that pending `play()`.
   */
  function PickAsWritten(p: Playback, surahId: int, current: string, s: string): Playback {
    var replayed := if p.isPlaying then Play(p, current, surahId, StartVerse(p.activeVerse)) else p;
    if s == current then replayed else ReplaceAudio(replayed)
  }

  /** The picker's click as intended: while playing, the verse is reloaded in the new reciter's voice. */
  function Pick(p: Playback, surahId: int, s: string): Playback {
    if p.isPlaying then Play(p, s, surahId, StartVerse(p.activeVerse)) else p
  }

  /**
   * As written, picking another reciter while a verse plays ends in silence:
   * playback is marked stopped and the audio element has no source, while
   * the active verse is the one that was playing.
   */
  lemma PickWhilePlayingFallsSilent(p: Playback, surahId: int, current: string, s: string)
    requires p.isPlaying && s != current
    ensures var r := PickAsWritten(p, surahId, current, s);
      && !r.isPlaying && r.audioSource.None? && !r.playPending
      && r.activeVerse == Some(StartVerse(p.activeVerse))
  {
  }

  /** Picking the reciter already chosen re-renders nothing, and the click as written does what was intended. */
  lemma PickSameReciterAsIntended(p: Playback, surahId: int, current: string)
    ensures PickAsWritten(p, surahId, current, current) == Pick(p, surahId, current)
  {
  }

  /**
   * As intended, picking a reciter while playing goes on, in the new
   * reciter's voice, from the active verse; playback is marked stopped only
   * when a `play()` from before was still pending, since the new source
   * aborts it.
   */
  lemma PickKeepsPlaying(p: Playback, surahId: int, s: string)
    requires p.isPlaying
    ensures var r := Pick(p, surahId, s);
      && (r.isPlaying <==> !p.playPending) && r.playPending && r.activeVerse == Some(StartVerse(p.activeVerse))
      && r.audioSource == Some(AudioUrl(s, surahId, StartVerse(p.activeVerse)))
  {
  }

  /**
   * The picker as written next to the intended one: switching from العفاسي to
   * المعيقلي while verse 1 of الفاتحة plays leaves the reader silent, where
   * المعيقلي's recitation of that verse should play.
   */
  lemma PickerFallsSilent()
    ensures var p := Playback(true, Some(1), Some(AudioUrl("مشاري العفاسي", 1, 1)), false);
      && !PickAsWritten(p, 1, "مشاري العفاسي", "ماهر المعيقلي").isPlaying
      && Pick(p, 1, "ماهر المعيقلي").isPlaying
      && Pick(p, 1, "ماهر المعيقلي").audioSource != Some(AudioUrl("مشاري العفاسي", 1, 1))
  {
    AudioUrlDistinguishesReciters("مشاري العفاسي", "ماهر المعيقلي", 1, 1);
  }

  // ---------------------------------------------------------------- screen

  class ReaderScreen {
    var selectedSurah: Option<Surah>
    var isPlaying: bool
    var activeVerse: Option<int>
    var currentSheikh: string
    /** The source of the current audio element, if one was loaded into it. */
    var audioSource: Option<string>
    /** A `play()` on the current element has been called and not yet settled. */
    var playPending: bool

    function State(): Playback
      reads this
    {
      Playback(isPlaying, activeVerse, audioSource, playPending)
    }

    /** The reader opens on the surah list with nothing playing; the effect's first run installs an empty audio element. */
    constructor (preferredSheikh: string)
      ensures selectedSurah.None? && State() == Playback(false, None, None, false)
      ensures currentSheikh == InitialSheikh(preferredSheikh)
    {
      selectedSurah, isPlaying, activeVerse := None, false, None;
      currentSheikh := InitialSheikh(preferredSheikh);
      audioSource, playPending := None, false;
    }

    /** The audio effect running again after the surah or the reciter changed. */
    method RerunAudioEffect()
      modifies this
      ensures selectedSurah == old(selectedSurah) && currentSheikh == old(currentSheikh)
      ensures State() == ReplaceAudio(old(State()))
    {
      isPlaying := isPlaying && !playPending;
      audioSource, playPending := None, false;
    }

    /**
     * Opening a surah from the list. The list builds fresh surah objects on
     * every render, so the selection always changes and the audio effect
     * runs again: the playing flag is kept but the new element is empty.
     */
    method SelectSurah(s: Surah)
      modifies this
      ensures selectedSurah == Some(s) && currentSheikh == old(currentSheikh)
      ensures State() == ReplaceAudio(old(State()))
    {
      selectedSurah := Some(s);
      RerunAudioEffect();
    }

    /** The back button of an open surah: the list is shown again and the audio effect runs again. */
    method CloseSurah()
      requires selectedSurah.Some?
      modifies this
      ensures selectedSurah.None? && currentSheikh == old(currentSheikh)
      ensures State() == ReplaceAudio(old(State()))
    {
      selectedSurah := None;
      RerunAudioEffect();
    }

    /**
     * `playVerse(verseNum)`: with no surah open nothing changes; otherwise
     * the verse becomes active and its recitation in the current reciter's
     * voice is loaded and asked to play, aborting a `play()` still pending.
     */
    method PlayVerse(verseNum: int)
      modifies this
      ensures selectedSurah == old(selectedSurah) && currentSheikh == old(currentSheikh)
      ensures old(selectedSurah).None? ==> State() == old(State())
      ensures old(selectedSurah).Some? ==>
        State() == Play(old(State()), currentSheikh, selectedSurah.value.id, verseNum)
    {
      if selectedSurah.None? {
        return;
      }
      isPlaying := isPlaying && !playPending;
      activeVerse := Some(verseNum);
      audioSource := Some(AudioUrl(currentSheikh, selectedSurah.value.id, verseNum));
      playPending := true;
    }

    /** The pending `play()` resolves: the recitation sounds. */
    method PlayStarted()
      requires playPending
      modifies this
      ensures selectedSurah == old(selectedSurah) && currentSheikh == old(currentSheikh)
      ensures State() == old(State()).(playPending := false)
    {
      playPending := false;
    }

    /** The pending `play()` is rejected (the browser refuses it): its `catch` marks playback stopped. */
    method PlayFailed()
      requires playPending
      modifies this
      ensures selectedSurah == old(selectedSurah) && currentSheikh == old(currentSheikh)
      ensures State() == old(State()).(isPlaying := false, playPending := false)
    {
      isPlaying, playPending := false, false;
    }

    /**
     * `togglePlayback`: while playing, the element is paused (aborting a
     * pending `play()`) and playback is marked stopped; otherwise playback
     * is marked on and starts from the active verse, or from verse 1.
     */
    method TogglePlayback()
      modifies this
      ensures selectedSurah == old(selectedSurah) && currentSheikh == old(currentSheikh)
      ensures old(isPlaying) ==> State() == old(State()).(isPlaying := false, playPending := false)
      ensures !old(isPlaying) && old(selectedSurah).Some? ==>
        State() == Play(old(State()).(isPlaying := true), currentSheikh, selectedSurah.value.id, StartVerse(old(activeVerse)))
      ensures !old(isPlaying) && old(selectedSurah).None? ==> State() == old(State()).(isPlaying := true)
    {
      if isPlaying {
        isPlaying, playPending := false, false;
      } else {
        isPlaying := true;
        PlayVerse(StartVerse(activeVerse));
      }
    }

    /**
     * `handleEnded`: the next verse plays while there is one; after the
     * surah's last verse playback stops and no verse is active. The active
     * verse never passes the surah's count.
     */
    method HandleEnded()
      modifies this
      ensures selectedSurah == old(selectedSurah) && currentSheikh == old(currentSheikh)
      ensures activeVerse == AfterEnded(old(selectedSurah), old(activeVerse))
      ensures activeVerse.Some? ==>
        isPlaying == (old(isPlaying) && !old(playPending)) && activeVerse.value <= selectedSurah.value.verses
        && audioSource == Some(AudioUrl(currentSheikh, selectedSurah.value.id, activeVerse.value))
        && playPending
      ensures activeVerse.None? ==>
        !isPlaying && audioSource == old(audioSource) && playPending == old(playPending)
    {
      var next := AfterEnded(selectedSurah, activeVerse);
      if next.Some? {
        PlayVerse(next.value);
      } else {
        isPlaying := false;
        activeVerse := None;
      }
    }

    /**
     * Picking a reciter in an open surah, as written. Returns the recitation
     * the click asked for: while playing, the previous reciter's.
     */
    method PickSheikhAsWritten(s: string) returns (requested: Option<string>)
      requires selectedSurah.Some?
      modifies this
      ensures selectedSurah == old(selectedSurah) && currentSheikh == s
      ensures State() == PickAsWritten(old(State()), selectedSurah.value.id, old(currentSheikh), s)
      ensures requested ==
        if old(isPlaying) then Some(AudioUrl(old(currentSheikh), selectedSurah.value.id, StartVerse(old(activeVerse))))
        else None
    {
      var previous := currentSheikh;
      requested := None;
      if isPlaying {
        PlayVerse(StartVerse(activeVerse));
        requested := audioSource;
      }
      currentSheikh := s;
      if s != previous {
        RerunAudioEffect();
      }
    }

    /** Picking a reciter in an open surah, as intended: a verse that plays goes on in the new voice. */
    method PickSheikh(s: string)
      requires selectedSurah.Some?
      modifies this
      ensures selectedSurah == old(selectedSurah) && currentSheikh == s
      ensures State() == Pick(old(State()), selectedSurah.value.id, s)
    {
      currentSheikh := s;
      if isPlaying {
        PlayVerse(StartVerse(activeVerse));
      }
    }
  }
}
