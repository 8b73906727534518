/**
 * The capture pipeline of the creator crawler: the three filters that decide
 * what reaches the merger (the search-result name gate, the new-tab target
 * filter and the response-URL filter) and `parseUserData`, which folds the
 * captured API responses for one creator into one profile.
 */
module Crawler {
  import opened Wrappers
  import opened GoValues
  import opened GoStrings

  /** The text the search page shows when it finds nobody. */
  const NoResultsText := "No results found"

  // ---------------------------------------------------------------- data

  datatype ContentLabel = ContentLabel(labelID: string, labelName: string)
  datatype AgeDistri = AgeDistri(ageInterval: string, ratio: Float64)
  datatype GenderDistri = GenderDistri(gender: string, ratio: Float64)
  datatype RegionDistri = RegionDistri(country: string, ratio: Float64)
  datatype FollowerTrend = FollowerTrend(count: int, date: string)
  datatype CoverImage = CoverImage(format: string, imageURL: string)
  datatype VideoItem = VideoItem(
    comment: int, coverURL: string, coverURLList: seq<CoverImage>, createTime: string,
    heart: int, isBoosted: bool, isSponsoredVideo: bool, itemID: string, share: int,
    title: string, videoURL: string, views: string)

  /**
   * The six lists of one creator record of the creator-card API response
   * that the merger reads. `None` is a list the JSON body left out or set to
   * null (a nil Go slice); `Some([])` is an empty JSON array.
   */
  datatype Creator = Creator(
    contentLabels: Option<seq<ContentLabel>>,
    age: Option<seq<AgeDistri>>,
    region: Option<seq<RegionDistri>>,
    gender: Option<seq<GenderDistri>>,
    followerCount: Option<seq<FollowerTrend>>,
    recentVideos: Option<seq<VideoItem>>)

  /** A decoded creator-card response, reduced to its list of creators. */
  datatype CreatorResponse = CreatorResponse(creators: seq<Creator>)

  /** One captured network response; `body` is nil when it was not decoded. */
  datatype CollectedData = CollectedData(url: string, status: int, body: Option<CreatorResponse>)

  /** The merged profile of one creator. */
  datatype TTOUser = TTOUser(
    categoryContent: seq<ContentLabel>,
    ageDistri: seq<AgeDistri>,
    regionDistri: seq<RegionDistri>,
    genderDistri: seq<GenderDistri>,
    followerTrend: seq<FollowerTrend>,
    videoViews: seq<VideoItem>)

  // ---------------------------------------------------------------- filters

  /**
   * The check after the search: the crawl goes on to click the first card
   * only if the page did not say "No results found" and the trimmed name on
   * the card is exactly the name searched for (case included).
   */
  function NameGate(firstCardContent: string, creatorNameText: string, kolName: string): (proceed: bool)
    ensures proceed ==> TrimSpace(creatorNameText) == kolName
    ensures proceed ==> !Contains(firstCardContent, NoResultsText)
    ensures !Contains(firstCardContent, NoResultsText) && TrimSpace(creatorNameText) == kolName ==> proceed
  {
    !(Contains(firstCardContent, NoResultsText) || TrimSpace(creatorNameText) != kolName)
  }

  /** What `processSingleKol` returns: the name, the captures and an error, if any. */
  datatype KolResult = KolResult(kolName: string, collected: seq<CollectedData>, err: Option<string>)

  /**
   * The early return after the name gate. The card text the gate searches for
   * "No results found" is a variable that is declared empty and never
   * assigned, so it is always "". On a mismatch the crawl stops with the
   * still-empty capture list and no error; `None` means it goes on to click.
   */
  function AfterSearch(creatorNameText: string, kolName: string): (r: Option<KolResult>)
    ensures r.None? <==> TrimSpace(creatorNameText) == kolName
    ensures r.Some? ==> r.value == KolResult(kolName, [], None)
  {
    var firstCardContent := "";
    if NameGate(firstCardContent, creatorNameText, kolName) then None
    else Some(KolResult(kolName, [], None))
  }

  /** The name gate compares names case-sensitively. */
  lemma NameGateIsCaseSensitive()
    ensures AfterSearch(" Alice ", "Alice").None?
    ensures AfterSearch("Alice", "alice").Some?
  {
    assert LeadingSpaces("Alice") == 0 && TrailingStart("Alice") == 5;
    assert "Alice"[0..5] == "Alice";
    assert " Alice "[1..] == "Alice ";
    assert LeadingSpaces("Alice ") == 0;
    assert "Alice "[..5] == "Alice";
    assert TrailingStart("Alice ") == 5;
    assert " Alice "[1..6] == "Alice";
    assert TrimSpace(" Alice ") == "Alice";
    assert "Alice"[0] != "alice"[0];
  }

  /** A browser target event; only target creations carry a type and an id. */
  datatype TargetEvent = TargetCreated(targetType: string, targetID: string) | OtherTargetEvent

  /** A target the listener forwards: a created target of type exactly "page". */
  predicate IsPage(e: TargetEvent)
  {
    e.TargetCreated? && e.targetType == "page"
  }

  /**
   * The new-tab listener: the ids it forwards to the tab channel, in event
   * order. Only created targets of type exactly "page" are forwarded.
   */
  function ForwardedTargets(events: seq<TargetEvent>): (ids: seq<string>)
    ensures forall i :: 0 <= i < |events| && IsPage(events[i]) ==> events[i].targetID in ids
    ensures forall id :: id in ids ==> TargetCreated("page", id) in events
    ensures |ids| <= |events|
  {
    if events == [] then []
    else
      var rest := ForwardedTargets(events[1..]);
      assert forall e :: e in events[1..] ==> e in events;
      if IsPage(events[0]) then [events[0].targetID] + rest
      else rest
  }

  /** One unfolding of `ForwardedTargets`: the first event's id, if it is a page, before the rest. */
  lemma ForwardedFirst(events: seq<TargetEvent>)
    requires events != []
    ensures ForwardedTargets(events)
      == (if IsPage(events[0]) then [events[0].targetID] else []) + ForwardedTargets(events[1..])
  {
    if !IsPage(events[0]) {
      assert [] + ForwardedTargets(events[1..]) == ForwardedTargets(events[1..]);
    }
  }

  /** A single event forwards its id exactly when it is a created "page" target, and nothing otherwise. */
  lemma ForwardedOfOne(e: TargetEvent)
    ensures ForwardedTargets([e]) == if IsPage(e) then [e.targetID] else []
  {
    ForwardedFirst([e]);
    assert [e][1..] == [];
  }

  /** The listener keeps event order: the ids of `a + b` are those of `a`, then those of `b`. */
  lemma {:induction false} ForwardedKeepsEventOrder(a: seq<TargetEvent>, b: seq<TargetEvent>)
    ensures ForwardedTargets(a + b) == ForwardedTargets(a) + ForwardedTargets(b)
  {
    if a == [] {
      assert a + b == b;
    } else {
      var head := if IsPage(a[0]) then [a[0].targetID] else [];
      assert (a + b)[0] == a[0];
      assert (a + b)[1..] == a[1..] + b;
      calc {
        ForwardedTargets(a + b);
      == { ForwardedFirst(a + b); }
        head + ForwardedTargets(a[1..] + b);
      == { ForwardedKeepsEventOrder(a[1..], b); }
        head + (ForwardedTargets(a[1..]) + ForwardedTargets(b));
      ==
        (head + ForwardedTargets(a[1..])) + ForwardedTargets(b);
      == { ForwardedFirst(a); }
        ForwardedTargets(a) + ForwardedTargets(b);
      }
    }
  }

  /**
   * The id the crawler attaches, the first one read from the channel, is
   * that of the first created "page" target; none is forwarded iff there is
   * no such event.
   */
  lemma {:induction false} FirstForwardedIsFirstPage(events: seq<TargetEvent>)
    ensures ForwardedTargets(events) == [] <==> forall i :: 0 <= i < |events| ==> !IsPage(events[i])
    ensures ForwardedTargets(events) != [] ==>
      exists i :: 0 <= i < |events| && events[i] == TargetCreated("page", ForwardedTargets(events)[0])
        && forall j :: 0 <= j < i ==> !IsPage(events[j])
  {
    if events != [] {
      ForwardedFirst(events);
      FirstForwardedIsFirstPage(events[1..]);
      var ids := ForwardedTargets(events);
      if IsPage(events[0]) {
        assert events[0] == TargetCreated("page", ids[0]);
      } else {
        assert ids == ForwardedTargets(events[1..]);
        if ids != [] {
          var i :| 0 <= i < |events[1..]| && events[1..][i] == TargetCreated("page", ids[0])
                   && forall j :: 0 <= j < i ==> !IsPage(events[1..][j]);
          assert events[i + 1] == TargetCreated("page", ids[0]);
          forall j | 0 <= j < i + 1
            ensures !IsPage(events[j])
          {
            if j > 0 {
              assert events[j] == events[1..][j - 1];
            }
          }
        } else {
          forall i | 0 <= i < |events|
            ensures !IsPage(events[i])
          {
            if i > 0 {
              assert events[i] == events[1..][i - 1];
            }
          }
        }
      }
    }
  }

  /** The response listener captures a response only if the pattern occurs in its URL. */
  predicate MatchesPattern(url: string, urlPattern: string)
  {
    Contains(url, urlPattern)
  }

  /**
   * One response event of the new tab, with the outcome of fetching and
   * decoding its body (`None` when either failed).
   */
  datatype ResponseEvent = ResponseEvent(url: string, status: int, decoded: Option<CreatorResponse>)

  /** The capture entry a response event yields. */
  function Collect(e: ResponseEvent): CollectedData
  {
    CollectedData(e.url, e.status, e.decoded)
  }

  /** An event the listener keeps: its URL matches and its body was fetched and decoded. */
  predicate Kept(e: ResponseEvent, urlPattern: string)
  {
    MatchesPattern(e.url, urlPattern) && e.decoded.Some?
  }

  /**
   * The capture list the response listener builds, taking the fetches as if
   * they completed in event order: matching responses whose body was fetched
   * and decoded, in order. Failed fetches and decodes are dropped.
   */
  function Captured(events: seq<ResponseEvent>, urlPattern: string): (captured: seq<CollectedData>)
    ensures |captured| <= |events|
    ensures forall c :: c in captured ==> c.body.Some? && MatchesPattern(c.url, urlPattern)
    ensures forall c :: c in captured ==> exists e :: e in events && Kept(e, urlPattern) && c == Collect(e)
    ensures forall e :: e in events && Kept(e, urlPattern) ==> Collect(e) in captured
  {
    if events == [] then []
    else
      var e := events[0];
      var rest := Captured(events[1..], urlPattern);
      assert forall x :: x in events ==> x == e || x in events[1..];
      assert forall x :: x in events[1..] ==> x in events;
      if Kept(e, urlPattern) then
        [Collect(e)] + rest
      else rest
  }

  /**
   * The capture list is the in-order filter of the events: the list for a
   * sequence of events is the list for its first part followed by the list
   * for the rest (`CapturedOfOne` gives the list of a single event).
   */
  lemma {:induction false} CapturedKeepsEventOrder(a: seq<ResponseEvent>, b: seq<ResponseEvent>, urlPattern: string)
    ensures Captured(a + b, urlPattern) == Captured(a, urlPattern) + Captured(b, urlPattern)
  {
    if a == [] {
      assert a + b == b;
    } else {
      var head := if Kept(a[0], urlPattern) then [Collect(a[0])] else [];
      assert (a + b)[0] == a[0];
      assert (a + b)[1..] == a[1..] + b;
      calc {
        Captured(a + b, urlPattern);
      == { CapturedFirst(a + b, urlPattern); }
        head + Captured(a[1..] + b, urlPattern);
      == { CapturedKeepsEventOrder(a[1..], b, urlPattern); }
        head + (Captured(a[1..], urlPattern) + Captured(b, urlPattern));
      ==
        (head + Captured(a[1..], urlPattern)) + Captured(b, urlPattern);
      == { CapturedFirst(a, urlPattern); }
        Captured(a, urlPattern) + Captured(b, urlPattern);
      }
    }
  }

  /** A single event yields its entry exactly when its URL matches and its body decoded. */
  lemma CapturedOfOne(e: ResponseEvent, urlPattern: string)
    ensures Captured([e], urlPattern) == if Kept(e, urlPattern) then [Collect(e)] else []
  {
    CapturedFirst([e], urlPattern);
    assert [e][1..] == [];
  }

  /** One unfolding of `Captured`: the first event's entry, if kept, before the rest. */
  lemma CapturedFirst(events: seq<ResponseEvent>, urlPattern: string)
    requires events != []
    ensures Captured(events, urlPattern)
      == (if Kept(events[0], urlPattern) then [Collect(events[0])] else []) + Captured(events[1..], urlPattern)
  {
    if !Kept(events[0], urlPattern) {
      assert [] + Captured(events[1..], urlPattern) == Captured(events[1..], urlPattern);
    }
  }

  /** The URL filter holds exactly when the pattern occurs at some position of the URL. */
  lemma MatchesPatternIffOccurs(url: string, urlPattern: string)
    ensures MatchesPattern(url, urlPattern) <==> exists i :: OccursAt(url, urlPattern, i)
  {
    ContainsIffOccurs(url, urlPattern);
  }

  // ---------------------------------------------------------------- merger

  /** The six local lists of `parseUserData`; `None` is a nil slice. */
  datatype Sections = Sections(
    category: Option<seq<ContentLabel>>,
    age: Option<seq<AgeDistri>>,
    region: Option<seq<RegionDistri>>,
    gender: Option<seq<GenderDistri>>,
    follower: Option<seq<FollowerTrend>>,
    videos: Option<seq<VideoItem>>)

  const NoSections := Sections(None, None, None, None, None, None)

  /** `len(x) > 0` on a possibly nil slice. */
  predicate NonEmpty<T>(x: Option<seq<T>>)
  {
    x.Some? && |x.value| > 0
  }

  /** All six lists are non-empty: the merge is "full". */
  predicate Full(s: Sections)
  {
    NonEmpty(s.category) && NonEmpty(s.age) && NonEmpty(s.region)
    && NonEmpty(s.gender) && NonEmpty(s.follower) && NonEmpty(s.videos)
  }

  /**
   * The per-section rule: `len(x) > 0 || x != nil` is `x != nil`, so any
   * non-nil list replaces the current one, an empty JSON array included.
   */
  function Adopt<T>(incoming: Option<seq<T>>, current: Option<seq<T>>): Option<seq<T>>
  {
    if incoming.Some? then incoming else current
  }

  /** One loop iteration's six assignments, from the first creator of a capture. */
  function Absorb(s: Sections, c: Creator): Sections
  {
    Sections(
      Adopt(c.contentLabels, s.category), Adopt(c.age, s.age), Adopt(c.region, s.region),
      Adopt(c.gender, s.gender), Adopt(c.followerCount, s.follower), Adopt(c.recentVideos, s.videos))
  }

  /** A capture the loop reads: it has a body with at least one creator. */
  predicate Usable(d: CollectedData)
  {
    d.body.Some? && |d.body.value.creators| > 0
  }

  /**
   * The loop of `parseUserData` from the lists `s`: usable captures are
   * absorbed in order and the loop stops, reporting `true`, right after the
   * first one that leaves all six lists non-empty.
   */
  function Merge(captures: seq<CollectedData>, s: Sections): (r: (Sections, bool))
    ensures r.1 ==> Full(r.0)
    ensures !Full(s) ==> (r.1 <==> Full(r.0))
  {
    if captures == [] then (s, false)
    else if !Usable(captures[0]) then Merge(captures[1..], s)
    else
      var s' := Absorb(s, captures[0].body.value.creators[0]);
      if Full(s') then (s', true) else Merge(captures[1..], s')
  }

  /** The profile made of the six lists. */
  function ToUser(s: Sections): TTOUser
    requires Full(s)
  {
    TTOUser(s.category.value, s.age.value, s.region.value, s.gender.value, s.follower.value, s.videos.value)
  }

  /**
   * What `parseUserData` returns: a profile and `true` when the merge
   * became full, otherwise nil and `false`; gathered lists of a partial
   * merge are never returned.
   */
  function ParsedUserData(collectedData: seq<CollectedData>): (r: (Option<TTOUser>, bool))
    ensures r.1 <==> r.0.Some?
    ensures r.0.Some? ==> var u := r.0.value;
              |u.categoryContent| > 0 && |u.ageDistri| > 0 && |u.regionDistri| > 0
              && |u.genderDistri| > 0 && |u.followerTrend| > 0 && |u.videoViews| > 0
    ensures collectedData == [] ==> r == (None, false)
  {
    var (s, isFull) := Merge(collectedData, NoSections);
    if isFull then (Some(ToUser(s)), true) else (None, false)
  }

  /**
   * `parseUserData`: six local lists reassigned capture by capture, leaving
   * the loop at the first capture after which all six are non-empty.
   */
  method ParseUserData(collectedData: seq<CollectedData>) returns (user: Option<TTOUser>, isFull: bool)
    ensures (user, isFull) == ParsedUserData(collectedData)
  {
    var categoryContent: Option<seq<ContentLabel>> := None;
    var ageDistri: Option<seq<AgeDistri>> := None;
    var regionDistri: Option<seq<RegionDistri>> := None;
    var genderDistri: Option<seq<GenderDistri>> := None;
    var followerTrend: Option<seq<FollowerTrend>> := None;
    var videoViews: Option<seq<VideoItem>> := None;
    isFull := false;
    var i := 0;
    while i < |collectedData|
      invariant 0 <= i <= |collectedData|
      invariant var s := Sections(categoryContent, ageDistri, regionDistri, genderDistri, followerTrend, videoViews);
        !isFull && !Full(s) && Merge(collectedData[i..], s) == Merge(collectedData, NoSections)
    {
      var data := collectedData[i];
      ghost var before := Sections(categoryContent, ageDistri, regionDistri, genderDistri, followerTrend, videoViews);
      assert collectedData[i..][1..] == collectedData[i + 1..];
      if data.body.Some? {
        var dataResp := data.body.value;
        if |dataResp.creators| == 0 {
          i := i + 1;
          continue;
        }
        var creatorData := dataResp.creators[0];
        if creatorData.contentLabels.Some? {
          categoryContent := creatorData.contentLabels;
        }
        if creatorData.age.Some? {
          ageDistri := creatorData.age;
        }
        if creatorData.region.Some? {
          regionDistri := creatorData.region;
        }
        if creatorData.gender.Some? {
          genderDistri := creatorData.gender;
        }
        if creatorData.followerCount.Some? {
          followerTrend := creatorData.followerCount;
        }
        if creatorData.recentVideos.Some? {
          videoViews := creatorData.recentVideos;
        }
        ghost var after := Sections(categoryContent, ageDistri, regionDistri, genderDistri, followerTrend, videoViews);
        assert after == Absorb(before, creatorData);
        if NonEmpty(categoryContent) && NonEmpty(ageDistri) && NonEmpty(regionDistri)
          && NonEmpty(genderDistri) && NonEmpty(followerTrend) && NonEmpty(videoViews)
        {
          isFull := true;
          break;
        }
      }
      i := i + 1;
    }
    if isFull {
      user := Some(TTOUser(categoryContent.value, ageDistri.value, regionDistri.value,
                           genderDistri.value, followerTrend.value, videoViews.value));
      return;
    }
    user := None;
  }

  // ---------------------------------------------------------------- merger properties

  /** The first creator of every usable capture, in order: all the merge ever reads. */
  function Effective(captures: seq<CollectedData>): (cs: seq<Creator>)
    ensures |cs| <= |captures|
  {
    if captures == [] then []
    else if Usable(captures[0]) then [captures[0].body.value.creators[0]] + Effective(captures[1..])
    else Effective(captures[1..])
  }

  /** The creators read from a concatenation of capture lists are those of each part, in order. */
  lemma {:induction false} EffectiveAppend(a: seq<CollectedData>, b: seq<CollectedData>)
    ensures Effective(a + b) == Effective(a) + Effective(b)
  {
    if a == [] {
      assert a + b == b;
    } else {
      assert (a + b)[0] == a[0];
      assert (a + b)[1..] == a[1..] + b;
      EffectiveAppend(a[1..], b);
    }
  }

  /**
   * A capture with a nil body or no creators changes nothing, wherever it
   * sits among the captures.
   */
  lemma InertCaptureIgnored(before: seq<CollectedData>, d: CollectedData, after: seq<CollectedData>)
    requires !Usable(d)
    ensures ParsedUserData(before + [d] + after) == ParsedUserData(before + after)
  {
    EffectiveAppend(before + [d], after);
    EffectiveAppend(before, [d]);
    EffectiveAppend(before, after);
    assert Effective([d]) == [];
    SameFirstCreatorsSameResult(before + [d] + after, before + after);
  }

  /** The merge loop run over creators rather than captures. */
  function MergeCreators(cs: seq<Creator>, s: Sections): (Sections, bool)
  {
    if cs == [] then (s, false)
    else
      var s' := Absorb(s, cs[0]);
      if Full(s') then (s', true) else MergeCreators(cs[1..], s')
  }

  /**
   * Only `Creators[0]` of each capture is read, and a capture with a nil body
   * or no creators changes nothing.
   */
  lemma {:induction false} MergeReadsOnlyFirstCreators(captures: seq<CollectedData>, s: Sections)
    ensures Merge(captures, s) == MergeCreators(Effective(captures), s)
  {
    if captures != [] {
      MergeReadsOnlyFirstCreators(captures[1..], s);
      if Usable(captures[0]) {
        var s' := Absorb(s, captures[0].body.value.creators[0]);
        MergeReadsOnlyFirstCreators(captures[1..], s');
        assert ([captures[0].body.value.creators[0]] + Effective(captures[1..]))[1..] == Effective(captures[1..]);
      }
    }
  }

  /** Two capture lists with the same first creators, in the same order, give the same result. */
  lemma SameFirstCreatorsSameResult(a: seq<CollectedData>, b: seq<CollectedData>)
    requires Effective(a) == Effective(b)
    ensures ParsedUserData(a) == ParsedUserData(b)
  {
    MergeReadsOnlyFirstCreators(a, NoSections);
    MergeReadsOnlyFirstCreators(b, NoSections);
  }

  /** The six lists after absorbing every creator, without stopping. */
  function Absorbed(cs: seq<Creator>, s: Sections): Sections
  {
    if cs == [] then s else Absorbed(cs[1..], Absorb(s, cs[0]))
  }

  lemma AbsorbedPrefix(cs: seq<Creator>, s: Sections, j: nat)
    requires 1 <= j <= |cs|
    ensures Absorbed(cs[..j], s) == Absorbed(cs[1..][..j - 1], Absorb(s, cs[0]))
  {
    assert cs[..j][1..] == cs[1..][..j - 1];
  }

  /**
   * The loop stops at the first creator after which all six lists are
   * non-empty; up to that point it is the plain fold `Absorbed`. If no
   * prefix makes the lists full, the result is the fold of all of them.
   */
  lemma {:induction false} MergeStopsAtFirstFull(cs: seq<Creator>, s: Sections)
    requires !Full(s)
    ensures var r := MergeCreators(cs, s);
      if r.1 then
        exists k :: 1 <= k <= |cs| && r.0 == Absorbed(cs[..k], s)
          && forall j :: 0 <= j < k ==> !Full(Absorbed(cs[..j], s))
      else
        r.0 == Absorbed(cs, s) && forall j :: 0 <= j <= |cs| ==> !Full(Absorbed(cs[..j], s))
  {
    if cs == [] {
      assert cs[..0] == [];
    } else {
      var s' := Absorb(s, cs[0]);
      assert Absorbed(cs[..0], s) == s by { assert cs[..0] == []; }
      if Full(s') {
        AbsorbedPrefix(cs, s, 1);
        assert cs[1..][..0] == [];
        assert MergeCreators(cs, s).0 == Absorbed(cs[..1], s);
      } else {
        MergeStopsAtFirstFull(cs[1..], s');
        forall j | 1 <= j <= |cs| {
          AbsorbedPrefix(cs, s, j);
        }
        if MergeCreators(cs, s).1 {
          var k' :| 1 <= k' <= |cs[1..]| && MergeCreators(cs[1..], s').0 == Absorbed(cs[1..][..k'], s')
            && forall j :: 0 <= j < k' ==> !Full(Absorbed(cs[1..][..j], s'));
          assert MergeCreators(cs, s).0 == Absorbed(cs[..k' + 1], s);
          forall j | 0 <= j < k' + 1
            ensures !Full(Absorbed(cs[..j], s))
          {
            if j > 0 {
              assert !Full(Absorbed(cs[1..][..j - 1], s'));
            }
          }
        } else {
          assert cs[1..][..|cs[1..]|] == cs[1..];
          assert cs[..|cs|] == cs;
          forall j | 0 <= j <= |cs|
            ensures !Full(Absorbed(cs[..j], s))
          {
            if j > 0 {
              assert !Full(Absorbed(cs[1..][..j - 1], s'));
            }
          }
        }
      }
    }
  }

  /**
   * The latest non-nil entry of `xs`, scanning from the end, or `init` if
   * every entry is nil.
   */
  function LastSome<T>(xs: seq<Option<T>>, init: Option<T>): (r: Option<T>)
    ensures (forall i :: 0 <= i < |xs| ==> xs[i].None?) ==> r == init
    ensures (exists i :: 0 <= i < |xs| && xs[i].Some?) ==>
              exists j :: 0 <= j < |xs| && r == xs[j] && r.Some? && forall i :: j < i < |xs| ==> xs[i].None?
  {
    if xs == [] then init
    else if xs[|xs| - 1].Some? then xs[|xs| - 1]
    else
      var front := xs[..|xs| - 1];
      var r := LastSome(front, init);
      assert forall i :: 0 <= i < |front| ==> front[i] == xs[i];
      assert (exists i :: 0 <= i < |xs| && xs[i].Some?) ==>
               exists j :: 0 <= j < |xs| && r == xs[j] && r.Some? && forall i :: j < i < |xs| ==> xs[i].None?
      by {
        if exists i :: 0 <= i < |xs| && xs[i].Some? {
          var k :| 0 <= k < |xs| && xs[k].Some?;
          assert front[k].Some?;
          var j :| 0 <= j < |front| && r == front[j] && r.Some? && forall i :: j < i < |front| ==> front[i].None?;
          assert r == xs[j];
          forall i | j < i < |xs|
            ensures xs[i].None?
          {
            if i < |front| {
              assert front[i].None?;
            }
          }
        }
      }
      r
  }

  lemma {:induction false} LastSomeFront<T>(xs: seq<Option<T>>, init: Option<T>)
    requires xs != []
    ensures LastSome(xs, init) == LastSome(xs[1..], if xs[0].Some? then xs[0] else init)
    decreases |xs|
  {
    if |xs| > 1 && xs[|xs| - 1].None? {
      assert xs[1..][..|xs[1..]| - 1] == xs[..|xs| - 1][1..];
      LastSomeFront(xs[..|xs| - 1], init);
    }
  }

  /** The values one field takes across a sequence of creators. */
  function Project<T>(cs: seq<Creator>, f: Creator -> T): seq<T>
  {
    seq(|cs|, i requires 0 <= i < |cs| => f(cs[i]))
  }

  /**
   * Without a stop, each list is, independently, the latest non-nil value
   * the creators gave it (an empty list included), or what it was before.
   */
  lemma {:induction false} AbsorbedIsLatestNonNil(cs: seq<Creator>, s: Sections)
    ensures Absorbed(cs, s).category == LastSome(Project(cs, (c: Creator) => c.contentLabels), s.category)
    ensures Absorbed(cs, s).age == LastSome(Project(cs, (c: Creator) => c.age), s.age)
    ensures Absorbed(cs, s).region == LastSome(Project(cs, (c: Creator) => c.region), s.region)
    ensures Absorbed(cs, s).gender == LastSome(Project(cs, (c: Creator) => c.gender), s.gender)
    ensures Absorbed(cs, s).follower == LastSome(Project(cs, (c: Creator) => c.followerCount), s.follower)
    ensures Absorbed(cs, s).videos == LastSome(Project(cs, (c: Creator) => c.recentVideos), s.videos)
  {
    if cs != [] {
      AbsorbedIsLatestNonNil(cs[1..], Absorb(s, cs[0]));
      ProjectTail(cs, (c: Creator) => c.contentLabels);
      ProjectTail(cs, (c: Creator) => c.age);
      ProjectTail(cs, (c: Creator) => c.region);
      ProjectTail(cs, (c: Creator) => c.gender);
      ProjectTail(cs, (c: Creator) => c.followerCount);
      ProjectTail(cs, (c: Creator) => c.recentVideos);
      LastSomeFront(Project(cs, (c: Creator) => c.contentLabels), s.category);
      LastSomeFront(Project(cs, (c: Creator) => c.age), s.age);
      LastSomeFront(Project(cs, (c: Creator) => c.region), s.region);
      LastSomeFront(Project(cs, (c: Creator) => c.gender), s.gender);
      LastSomeFront(Project(cs, (c: Creator) => c.followerCount), s.follower);
      LastSomeFront(Project(cs, (c: Creator) => c.recentVideos), s.videos);
    }
  }

  lemma ProjectTail<T>(cs: seq<Creator>, f: Creator -> T)
    requires cs != []
    ensures Project(cs, f)[0] == f(cs[0]) && Project(cs, f)[1..] == Project(cs[1..], f)
  {
  }

  /** Once the merge is full, captures that come later do not change the result. */
  lemma {:induction false} LaterCapturesIgnored(captures: seq<CollectedData>, later: seq<CollectedData>, s: Sections)
    requires Merge(captures, s).1
    ensures Merge(captures + later, s) == Merge(captures, s)
  {
    assert captures != [];
    assert (captures + later)[1..] == captures[1..] + later;
    if !Usable(captures[0]) {
      LaterCapturesIgnored(captures[1..], later, s);
    } else {
      var s' := Absorb(s, captures[0].body.value.creators[0]);
      if !Full(s') {
        LaterCapturesIgnored(captures[1..], later, s');
      }
    }
  }

  /**
   * The code keeps the latest non-nil list, not the first non-empty one: a
   * later capture with an empty category array wipes out labels an earlier
   * capture supplied, and the merge that would otherwise be full ends
   * partial.
   */
  lemma EmptyArrayOverwritesEarlierList(
    l: ContentLabel, a: AgeDistri, r: RegionDistri, g: GenderDistri, f: FollowerTrend, v: VideoItem)
    ensures var first := CollectedData("", 200, Some(CreatorResponse([
                Creator(Some([l]), Some([a]), Some([r]), Some([g]), Some([f]), None)])));
            var second := CollectedData("", 200, Some(CreatorResponse([
                Creator(Some([]), None, None, None, None, Some([v]))])));
            && Merge([first], NoSections).0.category == Some([l])
            && Merge([first, second], NoSections).0.category == Some([])
            && ParsedUserData([first, second]) == (None, false)
  {
    var first := CollectedData("", 200, Some(CreatorResponse([
        Creator(Some([l]), Some([a]), Some([r]), Some([g]), Some([f]), None)])));
    var second := CollectedData("", 200, Some(CreatorResponse([
        Creator(Some([]), None, None, None, None, Some([v]))])));
    var s1 := Absorb(NoSections, first.body.value.creators[0]);
    var s2 := Absorb(s1, second.body.value.creators[0]);
    assert !Full(s1) && !Full(s2);
    assert [first, second][1..] == [second];
    assert [second][1..] == [];
    assert Merge([first, second], NoSections) == Merge([second], s1);
    assert Merge([second], s1) == (s2, false);
  }

  /**
   * `parseUserData` reports a full profile exactly when some prefix of the
   * usable captures, folded, leaves all six lists non-empty; the profile is
   * then that fold for the shortest such prefix.
   */
  lemma ParsedFullIffSomePrefixFull(captures: seq<CollectedData>)
    ensures var cs := Effective(captures);
      ParsedUserData(captures).1 <==> exists k :: 0 <= k <= |cs| && Full(Absorbed(cs[..k], NoSections))
    ensures var cs := Effective(captures);
      ParsedUserData(captures).1 ==>
        exists k :: 1 <= k <= |cs| && Full(Absorbed(cs[..k], NoSections))
          && ParsedUserData(captures).0 == Some(ToUser(Absorbed(cs[..k], NoSections)))
          && forall j :: 0 <= j < k ==> !Full(Absorbed(cs[..j], NoSections))
  {
    var cs := Effective(captures);
    MergeReadsOnlyFirstCreators(captures, NoSections);
    MergeStopsAtFirstFull(cs, NoSections);
  }
}
