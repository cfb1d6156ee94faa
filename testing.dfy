/** The test-run page (public/testing.js): the run id a new run gets, the
    images of one run, their grouping by detection kind, the filter buttons,
    the caption of each image, the history list and the reaction to the
    real-time messages. */
module Testing {
  import opened Base
  import opened Text
  import opened Lists
  import Hub
  import Runner
  import History
  import Gallery

  // ---------------------------------------------------------------- run id

  predicate IsSeparator(c: char) { c == ':' || c == '.' }

  /** `iso.replace(/[:.]/g, '-')`: no separator is left, and a character
      changes only where there was a separator. */
  function ReplaceSeparators(s: string): (r: string)
    ensures |r| == |s|
    ensures forall i | 0 <= i < |r| :: !IsSeparator(r[i])
    ensures forall i | 0 <= i < |s| :: r[i] != s[i] <==> IsSeparator(s[i])
    ensures forall i | 0 <= i < |s| && IsSeparator(s[i]) :: r[i] == '-'
  {
    seq(|s|, i requires 0 <= i < |s| => if IsSeparator(s[i]) then '-' else s[i])
  }

  /** The timestamp part of a run id (public/testing.js:86): the ISO time
      with separators replaced and its last five characters (".mmmZ") cut. */
  function RunTimestamp(iso: string): string
  {
    Slice(ReplaceSeparators(iso), 0, -5)
  }

  /** The timestamp keeps the first |iso| - 5 characters, with every ':' and
      '.' turned into '-', so it holds neither. */
  lemma TimestampShape(iso: string)
    ensures |RunTimestamp(iso)| == Max(0, |iso| - 5)
    ensures forall i | 0 <= i < |RunTimestamp(iso)| ::
      RunTimestamp(iso)[i] == (if IsSeparator(iso[i]) then '-' else iso[i])
    ensures forall i | 0 <= i < |RunTimestamp(iso)| :: !IsSeparator(RunTimestamp(iso)[i])
  {
  }

  /** Length of the longest suffix of `v` that holds no '/' and no '.'. */
  function TailLen(v: string): (n: nat)
    ensures n <= |v|
    ensures forall i | |v| - n <= i < |v| :: v[i] != '/' && v[i] != '.'
    ensures n < |v| ==> v[|v| - n - 1] == '/' || v[|v| - n - 1] == '.'
  {
    if v == [] || v[|v| - 1] == '/' || v[|v| - 1] == '.' then 0
    else TailLen(v[..|v| - 1]) + 1
  }

  /** The pattern /\.[^/.]+$/ matches `v` at position `i`. */
  predicate ExtAt(v: string, i: int)
  {
    0 <= i < |v| - 1 && v[i] == '.' && forall j | i < j < |v| :: v[j] != '/' && v[j] != '.'
  }

  /** `video.replace(/\.[^/.]+$/, '')` (public/testing.js:87): a final
      extension is dropped together with its dot; a name whose last dot is
      followed by a '/', by nothing, or that has no dot, is kept whole. */
  function StripExt(v: string): (r: string)
    ensures forall i | ExtAt(v, i) :: r == v[..i]
    ensures (forall i | 0 <= i < |v| :: !ExtAt(v, i)) ==> r == v
  {
    var n := TailLen(v);
    if 0 < n < |v| && v[|v| - n - 1] == '.' then
      assert ExtAt(v, |v| - n - 1);
      v[..|v| - n - 1]
    else
      v
  }

  /** `test_${videoName}_${sport}_${timestamp}` (public/testing.js:86-88). */
  function RunId(video: string, sport: string, iso: string): string
  {
    "test_" + StripExt(video) + "_" + sport + "_" + RunTimestamp(iso)
  }

  /** A run id starts with "test_" and ends with a timestamp that holds no
      ':' and no '.'. */
  lemma RunIdShape(video: string, sport: string, iso: string)
    ensures StartsWith(RunId(video, sport, iso), "test_")
    ensures EndsWith(RunId(video, sport, iso), RunTimestamp(iso))
    ensures forall i | |RunId(video, sport, iso)| - |RunTimestamp(iso)| <= i < |RunId(video, sport, iso)| ::
      !IsSeparator(RunId(video, sport, iso)[i])
  {
    var id := RunId(video, sport, iso);
    var ts := RunTimestamp(iso);
    var head := "test_" + StripExt(video) + "_" + sport + "_";
    assert id == head + ts;
    assert id[..5] == "test_";
    assert id[|id| - |ts|..] == ts;
    TimestampShape(iso);
    forall i | |id| - |ts| <= i < |id| ensures !IsSeparator(id[i]) {
      assert id[i] == ts[i - |head|];
    }
  }

  lemma TimestampExample()
    ensures RunTimestamp("2024-01-02T03:04:05.678Z") == "2024-01-02T03-04-05"
  {
    assert ReplaceSeparators("2024-01-02T03:04:05.678Z") == "2024-01-02T03-04-05-678Z";
  }

  lemma StripExtExample()
    ensures StripExt("clip.mp4") == "clip"
  {
    assert ExtAt("clip.mp4", 4);
  }

  /** The run id of a basketball run of clip.mp4 started at
      2024-01-02T03:04:05.678Z. */
  lemma RunIdExample()
    ensures RunId("clip.mp4", "basketball", "2024-01-02T03:04:05.678Z")
         == "test_clip_basketball_2024-01-02T03-04-05"
  {
    TimestampExample();
    StripExtExample();
  }

  // ------------------------------------------------------- images of a run

  /** The filter of loadTestResults (public/testing.js:133-135). */
  function RunImages(images: seq<string>, id: string): (r: seq<string>)
    ensures forall n :: n in r <==> n in images && Contains(n, id) && !EndsWith(n, ".json")
  {
    Filter(images, (n: string) => Contains(n, id) && !EndsWith(n, ".json"))
  }

  /** The run's images keep the gallery's order: filtering a list split in
      two gives the filtered halves one after the other. */
  lemma RunImagesKeepOrder(a: seq<string>, b: seq<string>, id: string)
    ensures RunImages(a + b, id) == RunImages(a, id) + RunImages(b, id)
  {
    FilterAppend(a, b, (n: string) => Contains(n, id) && !EndsWith(n, ".json"));
  }

  /** `currentTestId` is truthy. */
  predicate HasRun(currentTestId: Option<string>) { currentTestId.Some? && currentTestId.value != "" }

  /** loadTestResults (public/testing.js:125-142) given the reply of
      `/api/images?page=1&pageSize=500`: None when it returns without
      displaying (no current id, or a reply without `images`). */
  function TestResults(currentTestId: Option<string>, reply: Gallery.ImagesReply): (shown: Option<seq<string>>)
    ensures shown.Some? <==> HasRun(currentTestId) && reply.ImagesPage?
    ensures shown.Some? ==> forall n :: n in shown.value <==>
      n in reply.images && Contains(n, currentTestId.value) && !EndsWith(n, ".json")
  {
    if !HasRun(currentTestId) then None
    else if reply.ImagesError? then None
    else Some(RunImages(reply.images, currentTestId.value))
  }

  // --------------------------------------------------------------- groups

  /** The keys of the `grouped` object (public/testing.js:150-156). */
  datatype Kind = Shot | L1 | L2 | Ball | Other

  /** The property name of a group. */
  function KeyOf(k: Kind): string
  {
    match k
    case Shot => "SHOT"
    case L1 => "L1"
    case L2 => "L2"
    case Ball => "BALL"
    case Other => "OTHER"
  }

  /** `grouped[name]` finds a group exactly for the five property names. */
  function KindNamed(name: string): (k: Option<Kind>)
    ensures k.Some? ==> KeyOf(k.value) == name
  {
    if name == "SHOT" then Some(Shot)
    else if name == "L1" then Some(L1)
    else if name == "L2" then Some(L2)
    else if name == "BALL" then Some(Ball)
    else if name == "OTHER" then Some(Other)
    else None
  }

  /** Every group is found under its own name. */
  lemma KindNamedKeyOf(k: Kind)
    ensures KindNamed(KeyOf(k)) == Some(k)
  {
  }

  /** The group an image goes to (public/testing.js:159-169): the first of
      `_SHOT_`, `_L1_`, `_L2_`, `_BALL_` that the name contains, else OTHER. */
  function Category(name: string): Kind
  {
    if Contains(name, "_SHOT_") then Shot
    else if Contains(name, "_L1_") then L1
    else if Contains(name, "_L2_") then L2
    else if Contains(name, "_BALL_") then Ball
    else Other
  }

  /** A name goes to a group exactly when it contains that group's marker
      and none of the markers that come before it. */
  lemma CategoryPriority(name: string)
    ensures Category(name) == Shot <==> Contains(name, "_SHOT_")
    ensures Category(name) == L1 <==> !Contains(name, "_SHOT_") && Contains(name, "_L1_")
    ensures Category(name) == L2 <==>
      !Contains(name, "_SHOT_") && !Contains(name, "_L1_") && Contains(name, "_L2_")
    ensures Category(name) == Ball <==>
      !Contains(name, "_SHOT_") && !Contains(name, "_L1_") && !Contains(name, "_L2_") && Contains(name, "_BALL_")
    ensures Category(name) == Other <==>
      !Contains(name, "_SHOT_") && !Contains(name, "_L1_") && !Contains(name, "_L2_") && !Contains(name, "_BALL_")
  {
  }

  function InCat(k: Kind): string -> bool { n => Category(n) == k }

  /** The images of group `k`, in their order. */
  function InCategory(images: seq<string>, k: Kind): seq<string>
  {
    Filter(images, InCat(k))
  }

  /** The step the grouping loop takes at index `i`. */
  lemma InCategoryStep(images: seq<string>, i: nat, k: Kind)
    requires i < |images|
    ensures InCategory(images[..i + 1], k)
         == InCategory(images[..i], k) + (if Category(images[i]) == k then [images[i]] else [])
  {
    FilterStep(images, i, InCat(k));
  }

  const KINDS: set<Kind> := {Shot, L1, L2, Ball, Other}

  /** The five groups of `images`. */
  function Groups(images: seq<string>): map<Kind, seq<string>>
  {
    map k | k in KINDS :: InCategory(images, k)
  }

  /** One step of the forEach adds the image to the end of its own group. */
  lemma GroupsStep(images: seq<string>, i: nat)
    requires i < |images|
    ensures Groups(images[..i + 1])
         == Groups(images[..i])[Category(images[i]) := Groups(images[..i])[Category(images[i])] + [images[i]]]
  {
    var before, after := Groups(images[..i]), Groups(images[..i + 1]);
    var k0 := Category(images[i]);
    var updated := before[k0 := before[k0] + [images[i]]];
    forall k | k in KINDS ensures after[k] == updated[k] {
      InCategoryStep(images, i, k);
    }
    assert after.Keys == updated.Keys;
  }

  /** The `grouped` object filled by the forEach of public/testing.js:150-170. */
  method GroupImages(images: seq<string>) returns (grouped: map<Kind, seq<string>>)
    ensures forall k: Kind :: k in grouped && grouped[k] == InCategory(images, k)
  {
    grouped := map[Shot := [], L1 := [], L2 := [], Ball := [], Other := []];
    assert images[..0] == [];
    assert grouped == Groups(images[..0]);
    for i := 0 to |images|
      invariant grouped == Groups(images[..i])
    {
      var img := images[i];
      GroupsStep(images, i);
      var kind;
      if Contains(img, "_SHOT_") {
        kind := Shot;
      } else if Contains(img, "_L1_") {
        kind := L1;
      } else if Contains(img, "_L2_") {
        kind := L2;
      } else if Contains(img, "_BALL_") {
        kind := Ball;
      } else {
        kind := Other;
      }
      grouped := grouped[kind := grouped[kind] + [img]];
    }
    assert images[..|images|] == images;
    forall k: Kind ensures k in grouped && grouped[k] == InCategory(images, k) {
      match k {
        case Shot =>
        case L1 =>
        case L2 =>
        case Ball =>
        case Other =>
      }
    }
  }

  /** Each image is in exactly the group of its category. */
  lemma InCategoryMembers(images: seq<string>, n: string, k: Kind)
    requires n in images
    ensures n in InCategory(images, k) <==> k == Category(n)
  {
    assert InCat(k)(n) == (Category(n) == k);
  }

  /** How often `x` occurs in the groups together. */
  function GroupCount(images: seq<string>, x: string): nat
  {
    multiset(InCategory(images, Shot))[x] + multiset(InCategory(images, L1))[x]
    + multiset(InCategory(images, L2))[x] + multiset(InCategory(images, Ball))[x]
    + multiset(InCategory(images, Other))[x]
  }

  lemma GroupCountIsCount(images: seq<string>, x: string)
    ensures GroupCount(images, x) == multiset(images)[x]
  {
    FilterMultiset(images, InCat(Shot), x);
    FilterMultiset(images, InCat(L1), x);
    FilterMultiset(images, InCat(L2), x);
    FilterMultiset(images, InCat(Ball), x);
    FilterMultiset(images, InCat(Other), x);
  }

  /** The groups partition the images: each image is in exactly one group,
      and together the groups hold every image as often as it occurs. */
  lemma GroupsPartition(images: seq<string>)
    ensures forall n, k: Kind | n in images :: n in InCategory(images, k) <==> k == Category(n)
    ensures multiset(InCategory(images, Shot)) + multiset(InCategory(images, L1))
          + multiset(InCategory(images, L2)) + multiset(InCategory(images, Ball))
          + multiset(InCategory(images, Other)) == multiset(images)
  {
    forall n, k: Kind | n in images ensures n in InCategory(images, k) <==> k == Category(n) {
      InCategoryMembers(images, n, k);
    }
    var sum := multiset(InCategory(images, Shot)) + multiset(InCategory(images, L1))
          + multiset(InCategory(images, L2)) + multiset(InCategory(images, Ball))
          + multiset(InCategory(images, Other));
    forall x ensures sum[x] == multiset(images)[x] {
      GroupCountIsCount(images, x);
    }
  }

  /** The images shown for the active filter (public/testing.js:173-180):
      all of them for "all", else the group of that name, else none. */
  method SelectImages(images: seq<string>, activeFilter: string) returns (shown: seq<string>)
    ensures activeFilter == "all" ==> shown == images
    ensures forall k: Kind | activeFilter == KeyOf(k) :: shown == InCategory(images, k)
    ensures activeFilter != "all" && KindNamed(activeFilter).None? ==> shown == []
  {
    var grouped := GroupImages(images);
    var kind := KindNamed(activeFilter);
    if activeFilter == "all" {
      shown := images;
    } else if kind.Some? {
      shown := grouped[kind.value];
    } else {
      shown := [];
    }
    forall k: Kind | activeFilter == KeyOf(k) ensures shown == InCategory(images, k) {
      KindNamedKeyOf(k);
    }
  }

  // --------------------------------------------------------------- labels

  predicate IsDigit(c: char) { '0' <= c <= '9' }

  predicate IsDecimalChar(c: char) { IsDigit(c) || c == '.' }

  predicate All(s: string, p: char -> bool) { forall i | 0 <= i < |s| :: p(s[i]) }

  /** The end of the longest run of characters satisfying `p` from `i`. */
  function RunEnd(s: string, i: nat, p: char -> bool): (j: nat)
    requires i <= |s|
    ensures i <= j <= |s|
    ensures forall k | i <= k < j :: p(s[k])
    ensures j < |s| ==> !p(s[j])
    decreases |s| - i
  {
    if i < |s| && p(s[i]) then RunEnd(s, i + 1, p) else i
  }

  /** A run that stops at `j` ends at `j`. */
  lemma {:induction false} RunEndAt(s: string, i: nat, j: nat, p: char -> bool)
    requires i <= j <= |s|
    requires forall k | i <= k < j :: p(s[k])
    requires j < |s| ==> !p(s[j])
    ensures RunEnd(s, i, p) == j
    decreases j - i
  {
    if i < j {
      RunEndAt(s, i + 1, j, p);
    }
  }

  /** /frame(\d+)_([0-9.]+)s/ matches `s` at `i` with groups `d` and `t`. */
  predicate FrameAt(s: string, i: nat, d: string, t: string)
  {
    |d| > 0 && |t| > 0 && All(d, IsDigit) && All(t, IsDecimalChar)
    && OccursAt(s, "frame" + d + "_" + t + "s", i)
  }

  /** The match at position `i`, if any. Both groups are greedy and what
      follows each ('_', then 's') is not in its class, so the match at a
      position is the widest runs. */
  function MatchAt(s: string, i: nat): Option<(string, string)>
  {
    if !OccursAt(s, "frame", i) then None
    else
      var j := RunEnd(s, i + 5, IsDigit);
      if j == i + 5 || j == |s| || s[j] != '_' then None
      else
        var k := RunEnd(s, j + 1, IsDecimalChar);
        if k == j + 1 || k == |s| || s[k] != 's' then None
        else Some((s[i + 5..j], s[j + 1..k]))
  }

  lemma MatchAtSound(s: string, i: nat)
    requires MatchAt(s, i).Some?
    ensures FrameAt(s, i, MatchAt(s, i).value.0, MatchAt(s, i).value.1)
  {
    var j := RunEnd(s, i + 5, IsDigit);
    var k := RunEnd(s, j + 1, IsDecimalChar);
    var d, t := s[i + 5..j], s[j + 1..k];
    var pat := "frame" + d + "_" + t + "s";
    assert s[i..j] == s[i..i + 5] + s[i + 5..j];
    assert s[i..j + 1] == s[i..j] + [s[j]];
    assert s[i..k] == s[i..j + 1] + s[j + 1..k];
    assert s[i..k + 1] == s[i..k] + [s[k]];
    assert s[i..i + |pat|] == pat;
  }

  lemma MatchAtComplete(s: string, i: nat, d: string, t: string)
    requires FrameAt(s, i, d, t)
    ensures MatchAt(s, i) == Some((d, t))
  {
    var j := i + 5 + |d|;
    var k := j + 1 + |t|;
    OccursSplit(s, "frame" + d + "_" + t, "s", i);
    OccursSplit(s, "frame" + d + "_", t, i);
    OccursSplit(s, "frame" + d, "_", i);
    OccursSplit(s, "frame", d, i);
    assert s[j] == '_' by { assert s[j..j + 1] == "_"; }
    assert s[k] == 's' by { assert s[k..k + 1] == "s"; }
    forall m | i + 5 <= m < j ensures IsDigit(s[m]) {
      assert s[m] == s[i + 5..j][m - i - 5];
    }
    RunEndAt(s, i + 5, j, IsDigit);
    forall m | j + 1 <= m < k ensures IsDecimalChar(s[m]) {
      assert s[m] == s[j + 1..k][m - j - 1];
    }
    RunEndAt(s, j + 1, k, IsDecimalChar);
  }

  /** MatchAt finds a match at `i` exactly when the pattern matches there. */
  lemma MatchAtIff(s: string, i: nat, d: string, t: string)
    ensures MatchAt(s, i) == Some((d, t)) <==> FrameAt(s, i, d, t)
  {
    if MatchAt(s, i) == Some((d, t)) {
      MatchAtSound(s, i);
    }
    if FrameAt(s, i, d, t) {
      MatchAtComplete(s, i, d, t);
    }
  }

  /** The leftmost position from `i` on where the pattern matches. */
  function FirstMatchAt(s: string, i: nat): (r: Option<nat>)
    ensures r.Some? ==> i <= r.value && MatchAt(s, r.value).Some?
    ensures forall m: nat | i <= m && (r.None? || m < r.value) :: MatchAt(s, m).None?
    decreases |s| - i
  {
    if i > |s| then None
    else if MatchAt(s, i).Some? then Some(i)
    else FirstMatchAt(s, i + 1)
  }

  /** `image.match(/frame(\d+)_([0-9.]+)s/)` as its two groups. */
  function FrameMatch(s: string): Option<(string, string)>
  {
    match FirstMatchAt(s, 0)
    case None => None
    case Some(i) => MatchAt(s, i)
  }

  /** FrameMatch is the leftmost match of the pattern, and is None exactly
      when the pattern matches nowhere. */
  lemma FrameMatchIsLeftmost(s: string)
    ensures FrameMatch(s).Some? ==>
      exists i: nat :: FrameAt(s, i, FrameMatch(s).value.0, FrameMatch(s).value.1) && forall i': nat, d: string, t: string | i' < i :: !FrameAt(s, i', d, t)
    ensures FrameMatch(s).None? <==> forall i: nat, d: string, t: string :: !FrameAt(s, i, d, t)
  {
    var first := FirstMatchAt(s, 0);
    if first.Some? {
      var i := first.value;
      var g := MatchAt(s, i).value;
      MatchAtSound(s, i);
      forall i': nat, d: string, t: string | i' < i ensures !FrameAt(s, i', d, t) {
        MatchAtIff(s, i', d, t);
      }
      assert FrameAt(s, i, g.0, g.1);
    } else {
      forall i: nat, d: string, t: string ensures !FrameAt(s, i, d, t) {
        MatchAtIff(s, i, d, t);
      }
    }
  }

  /** The caption prefix of a group (public/testing.js:197-205). */
  function CategoryPrefix(k: Kind): string
  {
    match k
    case Shot => "\U{1F3C0} SHOT "
    case L1 => "\U{1F4CA} L1 "
    case L2 => "\U{1F3AF} L2 "
    case Ball => "\U{26AA} BALL "
    case Other => ""
  }

  function FrameText(m: Option<(string, string)>): string
  {
    match m
    case None => ""
    case Some((d, t)) => "Frame " + d + " (" + t + "s)"
  }

  /** The caption of an image (public/testing.js:195-213): the group's prefix,
      then "Frame N (Ts)" when the name has a frame part; the name itself when
      both are empty. */
  method Label(image: string) returns (text: string)
    ensures Category(image) != Other ==> StartsWith(text, CategoryPrefix(Category(image)))
    ensures FrameMatch(image).Some? ==>
      EndsWith(text, "Frame " + FrameMatch(image).value.0 + " (" + FrameMatch(image).value.1 + "s)")
    ensures Category(image) != Other || FrameMatch(image).Some? ==>
      text == CategoryPrefix(Category(image)) + FrameText(FrameMatch(image))
    ensures Category(image) == Other && FrameMatch(image).None? ==> text == image
  {
    var caption := "";
    if Contains(image, "_SHOT_") {
      caption := "\U{1F3C0} SHOT ";
    } else if Contains(image, "_L1_") {
      caption := "\U{1F4CA} L1 ";
    } else if Contains(image, "_L2_") {
      caption := "\U{1F3AF} L2 ";
    } else if Contains(image, "_BALL_") {
      caption := "\U{26AA} BALL ";
    }
    var frameMatch := FrameMatch(image);
    if frameMatch.Some? {
      var frame := "Frame " + frameMatch.value.0 + " (" + frameMatch.value.1 + "s)";
      assert (caption + frame)[|caption + frame| - |frame|..] == frame;
      caption := caption + frame;
    }
    text := if caption == "" then image else caption;
  }

  // -------------------------------------------------------------- history

  /** `data.results.slice(0, 5)` (public/testing.js:247). */
  function Recent(results: seq<History.Summary>): (r: seq<History.Summary>)
    ensures |r| == Min(5, |results|)
    ensures r == results[..|r|]
  {
    Slice(results, 0, 5)
  }

  /** The history list shows the newest runs: none left out is newer than
      one shown. */
  lemma HistoryShowsNewest(files: seq<History.SummaryFile>)
    ensures forall i, j | 0 <= i < |Recent(History.Runs(files))| <= j < |History.Runs(files)| ::
      Recent(History.Runs(files))[i].timestamp >= History.Runs(files)[j].timestamp
  {
    var runs := History.Runs(files);
    History.RunsAreParsedSummaries(files, History.Summary("", "", "", 0, 0, None));
    assert SortedDesc(runs, History.Timestamp);
  }

  // ------------------------------------------------------------- messages

  /** What the page does in reaction to a message. */
  datatype Action = AppendConsole(text: string) | EnableRunButton | ReloadResults | ReloadHistory

  const SUCCESS_TEXT: string := "\n\U{2705} Test completed successfully!\n"
  const FAILURE_PREFIX: string := "\n\U{274C} Test failed: "

  /** `data.error || 'Unknown error'`. */
  function FailureReason(error: Option<string>): (r: string)
    ensures r != ""
    ensures error.Some? && error.value != "" ==> r == error.value
    ensures !(error.Some? && error.value != "") ==> r == "Unknown error"
  {
    if error.Some? && error.value != "" then error.value else "Unknown error"
  }

  function IsReload(a: Action): bool { a == ReloadResults || a == ReloadHistory }

  /** The onmessage handler of public/testing.js:16-39, given the current id. */
  function React(msg: Hub.Message, currentTestId: Option<string>): (acts: seq<Action>)
    ensures ReloadResults in acts <==>
      (msg.TestComplete? && msg.success)
      || (msg.NewImage? && HasRun(currentTestId) && msg.file != "" && Contains(msg.file, currentTestId.value))
    ensures ReloadHistory in acts <==> msg.TestComplete? && msg.success
    ensures EnableRunButton in acts <==> msg.TestComplete?
    ensures msg.TestProgress? ==> acts == [AppendConsole(msg.data)]
    ensures msg.TestComplete? && !msg.success ==>
      acts == [EnableRunButton, AppendConsole(FAILURE_PREFIX + FailureReason(msg.error))]
    ensures msg.ImageDeleted? || msg.DirectoryCleared? ==> acts == []
  {
    match msg
    case TestProgress(data) => [AppendConsole(data)]
    case TestComplete(success, error) =>
      if success then [EnableRunButton, AppendConsole(SUCCESS_TEXT), ReloadResults, ReloadHistory]
      else [EnableRunButton, AppendConsole(FAILURE_PREFIX + FailureReason(error))]
    case NewImage(file) =>
      if HasRun(currentTestId) && file != "" && Contains(file, currentTestId.value) then [ReloadResults] else []
    case ImageDeleted(_) => []
    case DirectoryCleared => []
  }

  /** The console text the actions append, in order. */
  function Appended(acts: seq<Action>): string
  {
    if acts == [] then ""
    else (if acts[0].AppendConsole? then acts[0].text else "") + Appended(acts[1..])
  }

  /** The console text each message adds. */
  lemma AppendedByReact(msg: Hub.Message, currentTestId: Option<string>)
    ensures msg.TestProgress? ==> Appended(React(msg, currentTestId)) == msg.data
    ensures msg.TestComplete? && msg.success ==> Appended(React(msg, currentTestId)) == SUCCESS_TEXT
    ensures msg.TestComplete? && !msg.success ==>
      Appended(React(msg, currentTestId)) == FAILURE_PREFIX + FailureReason(msg.error)
    ensures msg.NewImage? || msg.ImageDeleted? || msg.DirectoryCleared? ==> Appended(React(msg, currentTestId)) == ""
  {
    var acts := React(msg, currentTestId);
    assert Appended([]) == "";
    match msg {
      case TestProgress(data) =>
        assert acts[1..] == [];
      case TestComplete(success, error) =>
        if success {
          var tail := [ReloadResults, ReloadHistory];
          assert tail[1..] == [ReloadHistory] && tail[1..][1..] == [];
          assert Appended(tail) == "";
          assert acts[1..] == [AppendConsole(SUCCESS_TEXT)] + tail;
          assert acts[1..][1..] == tail;
        } else {
          assert acts[1..] == [AppendConsole(FAILURE_PREFIX + FailureReason(error))];
          assert acts[1..][1..] == [];
        }
      case NewImage(_) =>
        if acts != [] {
          assert acts[1..] == [];
        }
      case ImageDeleted(_) =>
      case DirectoryCleared =>
    }
  }

  /** `error.error || 'Test failed'` for a reply that is not ok
      (public/testing.js:101-104). */
  function ReplyError(reply: Runner.RunReply): (r: string)
    ensures r != ""
    ensures reply.body.Failed? && reply.body.error != "" ==> r == reply.body.error
    ensures !(reply.body.Failed? && reply.body.error != "") ==> r == "Test failed"
  {
    if reply.body.Failed? && reply.body.error != "" then reply.body.error else "Test failed"
  }

  const ERROR_PREFIX: string := "\n\U{274C} Error: "

  /** How the run request ends: the server's reply, or a `fetch` or
      `response.json()` that throws with a message. */
  datatype RunOutcome = Replied(reply: Runner.RunReply) | RequestFailed(message: string)

  /** The page's state: the global `currentTestId`, the console's text and
      whether the Run Test button is disabled. */
  class TestPage {
    var currentTestId: Option<string>
    var console: string
    var running: bool

    constructor()
      ensures currentTestId == None && console == "" && !running
    {
      currentTestId := None;
      console := "";
      running := false;
    }

    /** runTest up to the request (public/testing.js:67-90): refused when no
        video is selected; otherwise the button is disabled, the console is
        cleared and the new run id becomes current. */
    method RunTest(video: string, sport: string, iso: string) returns (started: bool)
      modifies this
      ensures started <==> video != ""
      ensures !started ==> currentTestId == old(currentTestId) && console == old(console) && running == old(running)
      ensures started ==>
        && currentTestId == Some(RunId(video, sport, iso))
        && console == "Starting test: " + RunId(video, sport, iso) + "\n\n"
        && running
    {
      if video == "" {
        return false;
      }
      running := true;
      console := "";
      var id := RunId(video, sport, iso);
      currentTestId := Some(id);
      console := console + "Starting test: " + id + "\n\n";
      started := true;
    }

    /** The end of the run request (public/testing.js:92-114): an ok reply
        changes nothing; a reply that is not ok, or a request that throws,
        reaches the catch, which logs the error's message and re-enables the
        button. */
    method OnRunReply(outcome: RunOutcome)
      modifies this
      ensures currentTestId == old(currentTestId)
      ensures outcome.Replied? && 200 <= outcome.reply.status < 300 ==>
        console == old(console) && running == old(running)
      ensures outcome.Replied? && !(200 <= outcome.reply.status < 300) ==>
        console == old(console) + ERROR_PREFIX + ReplyError(outcome.reply) && !running
      ensures outcome.RequestFailed? ==>
        console == old(console) + ERROR_PREFIX + outcome.message && !running
    {
      var message: string;
      match outcome {
        case Replied(reply) =>
          if 200 <= reply.status < 300 {
            return;
          }
          message := ReplyError(reply);
        case RequestFailed(m) =>
          message := m;
      }
      console := console + ERROR_PREFIX + message;
      running := false;
    }

    /** Applies the onmessage handler: the console grows by what React
        appends, the button is re-enabled on completion and the reloads are
        returned for the caller to perform. */
    method Receive(msg: Hub.Message) returns (reloads: seq<Action>)
      modifies this
      ensures console == old(console) + Appended(React(msg, old(currentTestId)))
      ensures running == (old(running) && EnableRunButton !in React(msg, old(currentTestId)))
      ensures reloads == Filter(React(msg, old(currentTestId)), IsReload)
      ensures currentTestId == old(currentTestId)
    {
      var acts := React(msg, currentTestId);
      AppendedByReact(msg, currentTestId);
      match msg {
        case TestProgress(data) =>
          console := console + data;
        case TestComplete(success, error) =>
          running := false;
          if success {
            console := console + SUCCESS_TEXT;
          } else {
            console := console + (FAILURE_PREFIX + FailureReason(error));
          }
        case NewImage(file) =>
        case ImageDeleted(_) =>
        case DirectoryCleared =>
      }
      reloads := Filter(acts, IsReload);
    }

    /** loadHistoricTest (public/testing.js:279-285): the chosen run becomes
        current, its results are reloaded (for the new id) and the console
        says so. */
    method LoadHistoric(testId: string) returns (reloads: seq<Action>)
      modifies this
      ensures currentTestId == Some(testId)
      ensures reloads == [ReloadResults]
      ensures console == "Loaded historic test: " + testId
      ensures running == old(running)
    {
      currentTestId := Some(testId);
      reloads := [ReloadResults];
      console := "Loaded historic test: " + testId;
    }
  }
}
