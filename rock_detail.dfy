/**
 * The detail view of one rock (src/components/RockDetailClient.tsx): its
 * narration toggle over the browser's speech engine, the video and sidebar
 * toggles, and the island-grouped sidebar with the current rock highlighted.
 *
 * The speech engine and the router are outside the model; the calls the
 * view makes to them are recorded, in order, in `speechCalls` and `pushed`.
 */
module RockDetail {
  import opened Rocks
  import EmbedUrl

  /** A request made to the speech engine. */
  datatype SpeechCall =
    | Speak(text: string, lang: string)
    | Cancel

  const NarrationLang: string := "ko-KR"

  /** The text read aloud for a rock: its name, ". ", then its description. */
  function NarrationText(rock: Rock): (t: string)
    ensures |t| == |rock.name| + 2 + |rock.description|
    ensures t[..|rock.name|] == rock.name
    ensures t[|rock.name|..|rock.name| + 2] == ". "
    ensures t[|rock.name| + 2..] == rock.description
  {
    rock.name + ". " + rock.description
  }

  /** One button of a sidebar section. */
  datatype SidebarEntry = SidebarEntry(id: string, order: int, name: string, highlighted: bool)

  /** A section of the sidebar: the island's rocks, the current one highlighted. */
  function Section(allRocks: seq<Rock>, island: Island, current: Rock): (r: seq<SidebarEntry>)
    ensures |r| == |OnIsland(allRocks, island)|
    ensures forall k :: 0 <= k < |r| ==>
      && r[k].id == OnIsland(allRocks, island)[k].id
      && r[k].order == OnIsland(allRocks, island)[k].displayOrder
      && r[k].name == OnIsland(allRocks, island)[k].name
      && (r[k].highlighted <==> r[k].id == current.id)
  {
    var rocks := OnIsland(allRocks, island);
    seq(|rocks|, k requires 0 <= k < |rocks| =>
      SidebarEntry(rocks[k].id, rocks[k].displayOrder, rocks[k].name, rocks[k].id == current.id))
  }

  /** "바위 없음" is shown under an island exactly when it has no rocks. */
  predicate ShowsNoRocks(allRocks: seq<Rock>, island: Island) {
    |OnIsland(allRocks, island)| == 0
  }

  /**
   * "바위 없음" appears under an island exactly when its section has no
   * buttons, that is, when no listed rock is on that island.
   */
  lemma NoRocksMessage(allRocks: seq<Rock>, island: Island, current: Rock)
    ensures ShowsNoRocks(allRocks, island) <==> Section(allRocks, island, current) == []
    ensures ShowsNoRocks(allRocks, island) <==>
      forall k :: 0 <= k < |allRocks| ==> allRocks[k].island != island
  {
  }

  function HighlightCount(entries: seq<SidebarEntry>): nat {
    if entries == [] then 0
    else (if entries[0].highlighted then 1 else 0) + HighlightCount(entries[1..])
  }

  lemma {:induction false} HighlightCountIsIdCount(rocks: seq<Rock>, current: Rock)
    ensures HighlightCount(seq(|rocks|, k requires 0 <= k < |rocks| =>
      SidebarEntry(rocks[k].id, rocks[k].displayOrder, rocks[k].name, rocks[k].id == current.id)))
      == CountId(rocks, current.id)
  {
    var e := seq(|rocks|, k requires 0 <= k < |rocks| =>
      SidebarEntry(rocks[k].id, rocks[k].displayOrder, rocks[k].name, rocks[k].id == current.id));
    if rocks != [] {
      var rest := rocks[1..];
      var e' := seq(|rest|, k requires 0 <= k < |rest| =>
        SidebarEntry(rest[k].id, rest[k].displayOrder, rest[k].name, rest[k].id == current.id));
      assert e[1..] == e';
      HighlightCountIsIdCount(rest, current);
    }
  }

  /**
   * With unique identifiers and the current rock among the listed ones,
   * exactly one sidebar button is highlighted over both sections.
   */
  lemma ExactlyOneHighlighted(allRocks: seq<Rock>, current: Rock)
    requires UniqueIds(allRocks)
    requires exists k :: 0 <= k < |allRocks| && allRocks[k].id == current.id
    ensures HighlightCount(Section(allRocks, Dongdo, current))
          + HighlightCount(Section(allRocks, Seodo, current)) == 1
  {
    var k :| 0 <= k < |allRocks| && allRocks[k].id == current.id;
    UniqueIdCountsOnce(allRocks, k);
    CountIdSplits(allRocks, current.id);
    HighlightCountIsIdCount(OnIsland(allRocks, Dongdo), current);
    HighlightCountIsIdCount(OnIsland(allRocks, Seodo), current);
  }

  /** The per-mount state of the detail view of `rock`. */
  class DetailView {
    const rock: Rock
    const allRocks: seq<Rock>
    var sidebarOpen: bool
    var showVideo: bool
    var isSpeaking: bool
    /** Calls made to the speech engine, oldest first. */
    var speechCalls: seq<SpeechCall>
    /** Routes pushed to the router, oldest first. */
    var pushed: seq<string>

    constructor (rock: Rock, allRocks: seq<Rock>)
      ensures this.rock == rock && this.allRocks == allRocks
      ensures !sidebarOpen && !showVideo && !isSpeaking
      ensures speechCalls == [] && pushed == []
      ensures !ShowsVideo()
    {
      this.rock := rock;
      this.allRocks := allRocks;
      sidebarOpen, showVideo, isSpeaking := false, false, false;
      speechCalls, pushed := [], [];
    }

    /** The ▶/3D button exists only for a rock with a video link. */
    predicate VideoToggleOffered()
    {
      rock.youtubeUrl != ""
    }

    /** The video frame replaces the 3D viewer only in video mode with a link. */
    predicate ShowsVideo()
      reads this
    {
      showVideo && rock.youtubeUrl != ""
    }

    /** The `src` of the video frame. */
    function VideoSource(): (src: string)
      ensures rock.youtubeUrl == "" ==> src == ""
      ensures src == "" || (|src| > |EmbedUrl.EmbedPrefix| && src[..|EmbedUrl.EmbedPrefix|] == EmbedUrl.EmbedPrefix)
    {
      EmbedUrl.EmbedUrlOf(rock.youtubeUrl)
    }

    /** `handleSpeak`: stop while speaking, otherwise read the rock aloud in Korean. */
    method PressNarration()
      modifies this
      ensures old(isSpeaking) ==> speechCalls == old(speechCalls) + [Cancel] && !isSpeaking
      ensures !old(isSpeaking) ==>
        speechCalls == old(speechCalls) + [Speak(NarrationText(rock), NarrationLang)] && isSpeaking
      ensures sidebarOpen == old(sidebarOpen) && showVideo == old(showVideo) && pushed == old(pushed)
    {
      if isSpeaking {
        speechCalls := speechCalls + [Cancel];
        isSpeaking := false;
        return;
      }
      speechCalls := speechCalls + [Speak(NarrationText(rock), NarrationLang)];
      isSpeaking := true;
    }

    /** The utterance's `onend` callback. */
    method SpeechEnded()
      modifies this
      ensures !isSpeaking
      ensures speechCalls == old(speechCalls) && pushed == old(pushed)
      ensures sidebarOpen == old(sidebarOpen) && showVideo == old(showVideo)
    {
      isSpeaking := false;
    }

    /** The ▶/3D button. */
    method ToggleVideo()
      requires VideoToggleOffered()
      modifies this
      ensures showVideo == !old(showVideo)
      ensures ShowsVideo() == !old(ShowsVideo())
      ensures isSpeaking == old(isSpeaking) && sidebarOpen == old(sidebarOpen)
      ensures speechCalls == old(speechCalls) && pushed == old(pushed)
    {
      showVideo := !showVideo;
    }

    /** The ☰/✕ menu button. */
    method ToggleSidebar()
      modifies this
      ensures sidebarOpen == !old(sidebarOpen)
      ensures isSpeaking == old(isSpeaking) && showVideo == old(showVideo)
      ensures speechCalls == old(speechCalls) && pushed == old(pushed)
    {
      sidebarOpen := !sidebarOpen;
    }

    /** A click on the dimmed overlay shown behind the open sidebar. */
    method ClickOverlay()
      requires sidebarOpen
      modifies this
      ensures !sidebarOpen
      ensures isSpeaking == old(isSpeaking) && showVideo == old(showVideo)
      ensures speechCalls == old(speechCalls) && pushed == old(pushed)
    {
      sidebarOpen := false;
    }

    /** The ← button. */
    method GoBack()
      modifies this
      ensures pushed == old(pushed) + [HomeRoute]
      ensures sidebarOpen == old(sidebarOpen) && isSpeaking == old(isSpeaking)
      ensures showVideo == old(showVideo) && speechCalls == old(speechCalls)
    {
      pushed := pushed + [HomeRoute];
    }

    /** A click on the `k`-th button of an island's section. */
    method SelectEntry(island: Island, k: nat)
      requires k < |OnIsland(allRocks, island)|
      modifies this
      ensures pushed == old(pushed) + [DetailRoute(OnIsland(allRocks, island)[k].id)]
      ensures !sidebarOpen
      ensures isSpeaking == old(isSpeaking) && showVideo == old(showVideo)
      ensures speechCalls == old(speechCalls)
    {
      pushed := pushed + [DetailRoute(OnIsland(allRocks, island)[k].id)];
      sidebarOpen := false;
    }
  }

  /**
   * Narration is a toggle: pressing twice from idle speaks once, cancels it,
   * and ends idle again, with exactly those two calls made.
   */
  method PressTwice(v: DetailView)
    requires !v.isSpeaking
    modifies v
    ensures !v.isSpeaking
    ensures v.speechCalls == old(v.speechCalls) + [Speak(NarrationText(v.rock), NarrationLang), Cancel]
    ensures v.sidebarOpen == old(v.sidebarOpen) && v.showVideo == old(v.showVideo) && v.pushed == old(v.pushed)
  {
    v.PressNarration();
    v.PressNarration();
  }
}
