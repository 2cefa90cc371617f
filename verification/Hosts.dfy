/** Pointing a REST config at one cluster, and away from it again, by the
    /clusters/<name> suffix of its host (internal/kcp/rest.go, internal/kcp/clusterclient.go). */
module Hosts {

  /** The host, and everything else that is only ever copied. */
  datatype RestConfig = RestConfig(host: string, rest: string)

  const SEGMENT := "/clusters/"

  /** The expression /clusters/([^/]+)$ matches the text from i to its end. */
  predicate MatchesAt(text: string, i: nat) {
    i + |SEGMENT| < |text| && text[i..i + |SEGMENT|] == SEGMENT && '/' !in text[i + |SEGMENT|..]
  }

  /** The leftmost match from i on, or the end of the text. */
  function FindMatch(text: string, i: nat): (k: nat)
    requires i <= |text|
    ensures i <= k <= |text| && (k < |text| ==> MatchesAt(text, k))
    ensures forall j :: i <= j < k ==> !MatchesAt(text, j)
    decreases |text| - i
  {
    if i == |text| || MatchesAt(text, i) then i else FindMatch(text, i + 1)
  }

  /** A match reaches to the end, so what is left after replacing all of them is what is before the first. */
  function ReplaceAllString(text: string): string {
    text[..FindMatch(text, 0)]
  }

  function TrimRight(text: string): string {
    if text != [] && text[|text| - 1] == '/' then TrimRight(text[..|text| - 1]) else text
  }

  function Strip(host: string): string {
    TrimRight(ReplaceAllString(host))
  }

  function StripCluster(cfg: RestConfig): RestConfig {
    cfg.(host := Strip(cfg.host))
  }

  function RetargetRestConfig(cfg: RestConfig, cluster: string): RestConfig {
    var stripped := StripCluster(cfg);
    stripped.(host := stripped.host + SEGMENT + cluster)
  }

  /** The config that a cluster client, created with cfg, uses for a cluster. */
  function ClusterConfig(cfg: RestConfig, cluster: string): RestConfig {
    cfg.(host := cfg.host + SEGMENT + cluster)
  }

  /** Cluster names and workspace paths are of this form. */
  predicate ValidName(name: string) {
    name != "" && '/' !in name
  }

  // ------------------------------------------------------------------- matching

  lemma SlashesOfSegment(text: string, i: nat)
    requires i + |SEGMENT| <= |text| && text[i..i + |SEGMENT|] == SEGMENT
    ensures text[i] == '/' && text[i + 9] == '/' && text[i + 1] == 'c'
    ensures forall j :: i < j < i + 9 ==> text[j] != '/'
  {
    var segment := text[i..i + |SEGMENT|];
    assert text[i] == segment[0] && text[i + 9] == segment[9] && text[i + 1] == segment[1];
    forall j | i < j < i + 9 ensures text[j] != '/' {
      assert text[j] == text[i..i + |SEGMENT|][j - i];
    }
  }

  /** No text matches at two places. */
  lemma MatchIsUnique(text: string, i: nat, j: nat)
    requires MatchesAt(text, i) && MatchesAt(text, j)
    ensures i == j
  {
    if i < j {
      LaterSegmentShows(text, i, j);
    } else if j < i {
      LaterSegmentShows(text, j, i);
    }
  }

  lemma LaterSegmentShows(text: string, i: nat, j: nat)
    requires i < j && j + |SEGMENT| < |text| && text[j..j + |SEGMENT|] == SEGMENT
    ensures '/' in text[i + |SEGMENT|..]
  {
    SlashesOfSegment(text, j);
    assert text[i + |SEGMENT|..][j + 9 - (i + |SEGMENT|)] == '/';
  }

  lemma FindsMatch(text: string, i: nat)
    requires MatchesAt(text, i)
    ensures FindMatch(text, 0) == i
  {
    MatchIsUnique(text, i, FindMatch(text, 0));
  }

  lemma {:induction false} TrimRightMeaning(text: string)
    ensures TrimRight(text) <= text
    ensures TrimRight(text) == [] || TrimRight(text)[|TrimRight(text)| - 1] != '/'
    ensures forall p :: 0 <= p < |text| && text[p] != '/' ==> p < |TrimRight(text)|
  {
    if text == [] || text[|text| - 1] != '/' {
    } else {
      TrimRightMeaning(text[..|text| - 1]);
    }
  }

  // ----------------------------------------------------------------- round trips

  lemma SuffixMatches(prefix: string, name: string)
    requires ValidName(name)
    ensures FindMatch(prefix + SEGMENT + name, 0) == |prefix|
  {
    var text := prefix + SEGMENT + name;
    assert text[|prefix|..|prefix| + |SEGMENT|] == SEGMENT;
    assert text[|prefix| + |SEGMENT|..] == name;
    FindsMatch(text, |prefix|);
  }

  /** A name that is empty or has a slash does not match as a whole: what is cut off begins inside it. */
  lemma InvalidNameKeeps(prefix: string, name: string)
    requires !ValidName(name)
    ensures |TrimRight(ReplaceAllString(prefix + SEGMENT + name))| > |prefix|
  {
    var text := prefix + SEGMENT + name;
    var k := FindMatch(text, 0);
    assert text[|prefix|..|prefix| + |SEGMENT|] == SEGMENT;
    assert text[|prefix| + |SEGMENT|..] == name;
    SlashesOfSegment(text, |prefix|);
    forall i: nat | i <= |prefix| ensures !MatchesAt(text, i) {
      LateSlash(prefix, name, i);
    }
    assert text[|prefix| + 1] != SEGMENT[0];
    assert k >= |prefix| + 2;
    TrimRightMeaning(text[..k]);
    assert text[..k][|prefix| + 1] == 'c';
  }

  lemma LateSlash(prefix: string, name: string, k: nat)
    requires !ValidName(name) && k <= |prefix|
    ensures !MatchesAt(prefix + SEGMENT + name, k)
  {
    var text := prefix + SEGMENT + name;
    if k + |SEGMENT| < |text| {
      var tail := text[k + |SEGMENT|..];
      if name == "" {
        assert text[|text| - 1] == SEGMENT[9];
        assert tail[|tail| - 1] == '/';
      } else {
        var j :| 0 <= j < |name| && name[j] == '/';
        assert text[|prefix| + |SEGMENT| + j] == '/';
        assert tail[|prefix| - k + j] == '/';
      }
    }
  }

  lemma StripIsTrimmed(host: string)
    ensures Strip(host) == [] || Strip(host)[|Strip(host)| - 1] != '/'
  {
    TrimRightMeaning(ReplaceAllString(host));
  }

  /** Stripping undoes retargeting exactly for names that are not empty and have no slash. */
  lemma StripUndoesRetarget(cfg: RestConfig, name: string)
    ensures StripCluster(RetargetRestConfig(cfg, name)) == StripCluster(cfg) <==> ValidName(name)
  {
    var stripped := Strip(cfg.host);
    var text := stripped + SEGMENT + name;
    StripIsTrimmed(cfg.host);
    if ValidName(name) {
      SuffixMatches(stripped, name);
      assert text[..|stripped|] == stripped;
    } else {
      InvalidNameKeeps(stripped, name);
    }
  }

  lemma AppendCancels(a: string, b: string, s: string)
    ensures a + s == b + s <==> a == b
  {
    if a + s == b + s {
      assert |a| == |b|;
      assert a == (a + s)[..|a|] && b == (b + s)[..|b|];
    }
  }

  /** Only the last retargeting counts, for exactly the same names. */
  lemma RetargetTwice(cfg: RestConfig, first: string, second: string)
    ensures RetargetRestConfig(RetargetRestConfig(cfg, first), second) == RetargetRestConfig(cfg, second)
       <==> ValidName(first)
  {
    StripUndoesRetarget(cfg, first);
    var a, b := Strip(RetargetRestConfig(cfg, first).host), Strip(cfg.host);
    AppendCancels(a + SEGMENT, b + SEGMENT, second);
    AppendCancels(a, b, SEGMENT);
  }

  /** Configs of different clusters, or of different servers, are never confused. */
  lemma RetargetIsInjective(cfg: RestConfig, name: string, cfg': RestConfig, name': string)
    requires ValidName(name) && ValidName(name')
    ensures RetargetRestConfig(cfg, name) == RetargetRestConfig(cfg', name')
       <==> StripCluster(cfg) == StripCluster(cfg') && name == name'
  {
    if RetargetRestConfig(cfg, name) == RetargetRestConfig(cfg', name') {
      StripUndoesRetarget(cfg, name);
      StripUndoesRetarget(cfg', name');
      var s := Strip(cfg.host);
      assert (s + SEGMENT + name)[|s| + |SEGMENT|..] == name;
      assert (s + SEGMENT + name')[|s| + |SEGMENT|..] == name';
    }
  }

  /** A cluster client agrees with retargeting exactly when the config it was created with
      has neither a cluster nor a trailing slash. */
  lemma ClusterConfigIsRetarget(cfg: RestConfig, name: string)
    ensures ClusterConfig(cfg, name) == RetargetRestConfig(cfg, name)
       <==> FindMatch(cfg.host, 0) == |cfg.host| && (cfg.host == "" || cfg.host[|cfg.host| - 1] != '/')
  {
    var stripped := Strip(cfg.host);
    AppendCancels(cfg.host + SEGMENT, stripped + SEGMENT, name);
    AppendCancels(cfg.host, stripped, SEGMENT);
    TrimRightMeaning(ReplaceAllString(cfg.host));
    if FindMatch(cfg.host, 0) == |cfg.host| {
      assert ReplaceAllString(cfg.host) == cfg.host;
    } else {
      assert |stripped| <= FindMatch(cfg.host, 0);
    }
  }

  // The literal texts, put together.

  lemma RootText()
    ensures "https://kcp" + SEGMENT + "root" == "https://kcp/clusters/root"
  {
  }

  lemma RootAText()
    ensures "https://kcp/clusters/root" + SEGMENT + "a" == "https://kcp/clusters/root/clusters/a"
  {
  }

  lemma AText()
    ensures "https://kcp" + SEGMENT + "a" == "https://kcp/clusters/a"
  {
  }

  /** Pointing at a cluster and away from it again; what else is in the config is kept. */
  lemma RetargetExample(rest: string)
    ensures RetargetRestConfig(RestConfig("https://kcp", rest), "root") == RestConfig("https://kcp/clusters/root", rest)
    ensures ClusterConfig(RestConfig("https://kcp", rest), "root") == RestConfig("https://kcp/clusters/root", rest)
    ensures StripCluster(RestConfig("https://kcp/clusters/root", rest)) == RestConfig("https://kcp", rest)
  {
    RootText();
    NoClusterYet();
    ClusterConfigIsRetarget(RestConfig("https://kcp", rest), "root");
    StripTakesSuffix("https://kcp/clusters/root", "https://kcp", "root");
  }

  lemma NoClusterYet()
    ensures FindMatch("https://kcp", 0) == |"https://kcp"|
  {
    assert forall i: nat :: !MatchesAt("https://kcp", i) by {
      assert "https://kcp"[0] == 'h' && SEGMENT[0] == '/';
    }
  }

  /** A client that was created without stripping appends to the cluster that the host pointed at. */
  lemma ClientKeepsOldCluster(rest: string)
    ensures ClusterConfig(RestConfig("https://kcp/clusters/root", rest), "a")
         == RestConfig("https://kcp/clusters/root/clusters/a", rest)
    ensures RetargetRestConfig(RestConfig("https://kcp/clusters/root", rest), "a")
         == RestConfig("https://kcp/clusters/a", rest)
  {
    RootText();
    RootAText();
    AText();
    StripTakesSuffix("https://kcp/clusters/root", "https://kcp", "root");
  }

  lemma StripTakesSuffix(host: string, prefix: string, name: string)
    requires host == prefix + SEGMENT + name && ValidName(name)
    requires prefix != "" && prefix[|prefix| - 1] != '/'
    ensures Strip(host) == prefix
  {
    SuffixMatches(prefix, name);
    assert host[..|prefix|] == prefix;
  }

  /** The client that the agent creates gives every cluster the config that retargeting would, and - for
      exactly these names - it does not matter which cluster the given config was pointed at before. */
  lemma StrippedClientRetargets(cfg: RestConfig, before: string, name: string)
    ensures ClusterConfig(StripCluster(cfg), name) == RetargetRestConfig(cfg, name)
    ensures ClusterConfig(StripCluster(RetargetRestConfig(cfg, before)), name) == RetargetRestConfig(cfg, name)
       <==> ValidName(before)
    ensures ValidName(name) ==> StripCluster(ClusterConfig(StripCluster(cfg), name)) == StripCluster(cfg)
  {
    StripUndoesRetarget(cfg, name);
    RetargetTwice(cfg, before, name);
  }

  // ---------------------------------------------------------------- stripping twice

  predicate AllSlashes(text: string) {
    forall i :: 0 <= i < |text| ==> text[i] == '/'
  }

  /** The host is a prefix, a cluster suffix, slashes, and then either nothing - but at least one slash
      before it - or one more cluster suffix. */
  predicate EndsInTwo(host: string, prefix: string, name: string, slashes: string, rest: string) {
    host == prefix + SEGMENT + name + slashes + rest && ValidName(name) && AllSlashes(slashes) &&
    if rest == "" then slashes != "" else MatchesAt(rest, 0)
  }

  lemma {:induction false} TrimSlashes(text: string, slashes: string)
    requires text == "" || text[|text| - 1] != '/'
    requires AllSlashes(slashes)
    ensures TrimRight(text + slashes) == text
  {
    if slashes == "" {
      assert text + slashes == text;
    } else {
      TrimSlashes(text, slashes[..|slashes| - 1]);
      TrimOne(text, slashes);
    }
  }

  lemma TrimOne(text: string, slashes: string)
    requires slashes != "" && slashes[|slashes| - 1] == '/'
    ensures TrimRight(text + slashes) == TrimRight(text + slashes[..|slashes| - 1])
  {
    assert (text + slashes)[..|text + slashes| - 1] == text + slashes[..|slashes| - 1];
  }

  lemma {:induction false} TrimLeavesSlashes(text: string)
    ensures TrimRight(text) <= text && AllSlashes(text[|TrimRight(text)|..])
  {
    if text == [] || text[|text| - 1] != '/' {
    } else {
      var init := text[..|text| - 1];
      TrimLeavesSlashes(init);
      assert text == init + ['/'];
      assert text[|TrimRight(text)|..] == init[|TrimRight(text)|..] + ['/'];
    }
  }

  lemma NoMatchBeforeSlash(text: string)
    requires text != "" && text[|text| - 1] == '/'
    ensures ReplaceAllString(text) == text
  {
    forall k: nat | k < |text| ensures !MatchesAt(text, k) {
      if k + |SEGMENT| < |text| {
        var tail := text[k + |SEGMENT|..];
        assert tail[|tail| - 1] == '/';
      }
    }
  }

  /** Of such a host, stripping leaves the first cluster suffix; a second application takes that, too. */
  lemma StripLeavesOne(host: string, prefix: string, name: string, slashes: string, rest: string)
    requires EndsInTwo(host, prefix, name, slashes, rest)
    ensures Strip(host) == prefix + SEGMENT + name
    ensures Strip(Strip(host)) == TrimRight(prefix) != Strip(host)
  {
    var inner := prefix + SEGMENT + name;
    assert inner[|inner| - 1] == name[|name| - 1];
    ReplaceLeavesSlashes(host, inner, slashes, rest);
    TrimSlashes(inner, slashes);
    SuffixMatches(prefix, name);
    assert inner[..|prefix|] == prefix;
    TrimRightMeaning(prefix);
  }

  lemma ReplaceLeavesSlashes(host: string, inner: string, slashes: string, rest: string)
    requires host == inner + slashes + rest && AllSlashes(slashes)
    requires if rest == "" then slashes != "" else MatchesAt(rest, 0)
    ensures ReplaceAllString(host) == inner + slashes
  {
    if rest == "" {
      assert host == inner + slashes;
      NoMatchBeforeSlash(host);
    } else {
      var name := rest[|SEGMENT|..];
      assert rest == SEGMENT + name;
      assert host == (inner + slashes) + SEGMENT + name;
      SuffixMatches(inner + slashes, name);
      assert host[..|inner + slashes|] == inner + slashes;
    }
  }

  /** A match at k splits the text into a prefix, the segment and a name. */
  lemma MatchSplits(text: string, k: nat)
    requires MatchesAt(text, k)
    ensures text == text[..k] + SEGMENT + text[k + |SEGMENT|..] && ValidName(text[k + |SEGMENT|..])
  {
  }

  /** Stripping takes slashes off, and before that either nothing or a match. */
  lemma StripSplits(host: string) returns (slashes: string, rest: string)
    ensures host == Strip(host) + slashes + rest && AllSlashes(slashes)
    ensures rest == "" || MatchesAt(rest, 0)
    ensures rest == "" ==> ReplaceAllString(host) == host
  {
    var replaced := ReplaceAllString(host);
    TrimLeavesSlashes(replaced);
    slashes, rest := replaced[|Strip(host)|..], host[|replaced|..];
    assert replaced == Strip(host) + slashes;
    assert host == replaced + rest;
    if rest != "" {
      RestMatches(host, |replaced|);
    }
  }

  lemma RestMatches(text: string, k: nat)
    requires MatchesAt(text, k)
    ensures MatchesAt(text[k..], 0)
  {
    assert text[k..][..|SEGMENT|] == text[k..k + |SEGMENT|];
    assert text[k..][|SEGMENT|..] == text[k + |SEGMENT|..];
  }

  /** What is left after stripping has a match only if the host had this form. */
  lemma LeftOverShowsForm(host: string) returns (prefix: string, name: string, slashes: string, rest: string)
    requires FindMatch(Strip(host), 0) < |Strip(host)|
    ensures EndsInTwo(host, prefix, name, slashes, rest)
  {
    var s := Strip(host);
    var k := FindMatch(s, 0);
    prefix, name := s[..k], s[k + |SEGMENT|..];
    MatchSplits(s, k);
    slashes, rest := StripSplits(host);
    assert rest == "" && slashes == "" ==> host == s;
  }

  /** Stripping twice is stripping once, except for exactly these hosts. */
  lemma StripIsIdempotentIff(cfg: RestConfig)
    ensures StripCluster(StripCluster(cfg)) == StripCluster(cfg) <==>
      !exists prefix, name, slashes, rest :: EndsInTwo(cfg.host, prefix, name, slashes, rest)
  {
    var s := Strip(cfg.host);
    if FindMatch(s, 0) < |s| {
      var prefix, name, slashes, rest := LeftOverShowsForm(cfg.host);
      StripLeavesOne(cfg.host, prefix, name, slashes, rest);
    } else {
      assert ReplaceAllString(s) == s;
      StripIsTrimmed(cfg.host);
      if prefix, name, slashes, rest :| EndsInTwo(cfg.host, prefix, name, slashes, rest) {
        StripLeavesOne(cfg.host, prefix, name, slashes, rest);
      }
    }
  }

  lemma TwoSuffixesText()
    ensures "https://kcp" + SEGMENT + "root" + "" + (SEGMENT + "a") == "https://kcp/clusters/root/clusters/a"
  {
    RootText();
    RootAText();
    assert "https://kcp" + SEGMENT + "root" + "" == "https://kcp" + SEGMENT + "root";
    Associates("https://kcp" + SEGMENT + "root", SEGMENT, "a");
  }

  lemma Associates(a: string, b: string, c: string)
    ensures a + (b + c) == a + b + c
  {
  }

  lemma SlashText()
    ensures "https://kcp" + SEGMENT + "root" + "/" + "" == "https://kcp/clusters/root/"
  {
    RootText();
    assert "https://kcp/clusters/root" + "/" + "" == "https://kcp/clusters/root/";
  }

  /** Of two suffixes one is taken off; of one suffix and a slash, only the slash. */
  lemma StripExamples()
    ensures Strip("https://kcp/clusters/root/clusters/a") == "https://kcp/clusters/root"
    ensures Strip("https://kcp/clusters/root/") == "https://kcp/clusters/root"
    ensures Strip("https://kcp/clusters/root") == "https://kcp"
  {
    RootText();
    SuffixOnly("a");
    TwoSuffixesText();
    StripLeavesOne("https://kcp/clusters/root/clusters/a", "https://kcp", "root", "", SEGMENT + "a");
    SlashText();
    StripLeavesOne("https://kcp/clusters/root/", "https://kcp", "root", "/", "");
    StripTakesSuffix("https://kcp/clusters/root", "https://kcp", "root");
  }

  lemma SuffixOnly(name: string)
    requires ValidName(name)
    ensures MatchesAt(SEGMENT + name, 0)
  {
    assert (SEGMENT + name)[|SEGMENT|..] == name;
  }
}
