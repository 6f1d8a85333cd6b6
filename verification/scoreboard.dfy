/**
  The scoring rules of the fullscreen scoreboard: datagrams carrying a team
  UID credit one point to the first matching team, the team list is then
  re-sorted by (score, previous score), highest first, and the rank and row
  of each team choose its colours. Rendering is not modelled.
*/
module Scoreboard {
  import opened Options

  /** The UID matching modes (FIRST_BYTE_MODE, FOUR_BYTE_MODE, FULL_MATCH_MODE). */
  datatype MatchConfig = MatchConfig(firstByte: bool, fourByte: bool, fullMatch: bool)

  /** The shipped configuration: legacy first-byte matching only. */
  const DefaultConfig := MatchConfig(true, false, false)

  /** A team row: its name, its UID and its current and previous scores. */
  datatype Team = Team(name: string, uid: seq<bv8>, score: int, prevScore: int)

  /** Python's `s[:4]`: the first four bytes, or all of them when there are fewer. */
  function Head4(s: seq<bv8>): seq<bv8>
  {
    if |s| <= 4 then s else s[..4]
  }

  /**
    What the matching code can evaluate without failing: in first-byte mode it
    reads `c[0]` and `t.uid[0]`, which raise on an empty datagram or UID.
  */
  predicate Handled(cfg: MatchConfig, teams: seq<Team>, c: seq<bv8>)
  {
    cfg.firstByte ==> |c| > 0 && UidsNonEmpty(teams)
  }

  /** Every team's UID has a first byte. */
  predicate UidsNonEmpty(teams: seq<Team>)
  {
    forall j :: 0 <= j < |teams| ==> |teams[j].uid| > 0
  }

  /** Same teams in the same places, scores aside. */
  predicate SameRoster(a: seq<Team>, b: seq<Team>)
  {
    |a| == |b| && forall j :: 0 <= j < |a| ==> a[j].name == b[j].name && a[j].uid == b[j].uid
  }

  /** The UID test: the disjunction of the three tests, each gated by its mode flag. */
  predicate Matches(cfg: MatchConfig, c: seq<bv8>, uid: seq<bv8>)
    requires cfg.firstByte ==> |c| > 0 && |uid| > 0
  {
    || (cfg.firstByte && c[0] == uid[0])
    || (cfg.fourByte && Head4(c) == Head4(uid))
    || (cfg.fullMatch && c == uid)
  }

  /** In the shipped configuration a datagram matches a UID exactly when their first bytes agree. */
  lemma DefaultConfigMatchesFirstByte(c: seq<bv8>, uid: seq<bv8>)
    requires |c| > 0 && |uid| > 0
    ensures Matches(DefaultConfig, c, uid) <==> c[0] == uid[0]
  {
  }

  /** The index of the first team, in list order, whose UID matches `c`. */
  function FirstMatch(cfg: MatchConfig, teams: seq<Team>, c: seq<bv8>): (r: Option<nat>)
    requires Handled(cfg, teams, c)
    ensures r.Some? ==> r.value < |teams| && Matches(cfg, c, teams[r.value].uid)
    ensures r.Some? ==> forall j :: 0 <= j < r.value ==> !Matches(cfg, c, teams[j].uid)
    ensures r.None? ==> forall j :: 0 <= j < |teams| ==> !Matches(cfg, c, teams[j].uid)
  {
    if teams == [] then None
    else if Matches(cfg, c, teams[0].uid) then Some(0)
    else
      match FirstMatch(cfg, teams[1..], c)
      case None => None
      case Some(i) => Some(i + 1)
  }

  /**
    The effect of one datagram: the first matching team gains a point and
    every other team is unchanged; no match changes nothing.
  */
  function Credit(cfg: MatchConfig, teams: seq<Team>, c: seq<bv8>): (r: seq<Team>)
    requires Handled(cfg, teams, c)
    ensures |r| == |teams|
    ensures r == teams <==> forall j :: 0 <= j < |teams| ==> !Matches(cfg, c, teams[j].uid)
    ensures forall j :: 0 <= j < |teams| ==>
      || r[j] == teams[j]
      || (&& Matches(cfg, c, teams[j].uid)
          && (forall i :: 0 <= i < j ==> !Matches(cfg, c, teams[i].uid))
          && r[j] == teams[j].(score := teams[j].score + 1))
    ensures SameRoster(r, teams)
  {
    match FirstMatch(cfg, teams, c)
    case None => teams
    case Some(i) =>
      assert teams[i := teams[i].(score := teams[i].score + 1)][i] != teams[i];
      teams[i := teams[i].(score := teams[i].score + 1)]
  }

  /** A datagram that matches some team credits exactly one team: at most one entry differs. */
  lemma CreditChangesAtMostOne(cfg: MatchConfig, teams: seq<Team>, c: seq<bv8>, j: nat, k: nat)
    requires Handled(cfg, teams, c)
    requires j < k < |teams|
    ensures Credit(cfg, teams, c)[j] == teams[j] || Credit(cfg, teams, c)[k] == teams[k]
  {
  }

  /** The datagrams of one frame, credited in arrival order; `updated` says whether any matched. */
  function CreditAll(cfg: MatchConfig, teams: seq<Team>, cs: seq<seq<bv8>>): (r: (seq<Team>, bool))
    requires forall c :: c in cs ==> Handled(cfg, teams, c)
    ensures SameRoster(r.0, teams)
    ensures !r.1 ==> r.0 == teams
  {
    if cs == [] then (teams, false)
    else
      var prev := CreditAll(cfg, teams, cs[..|cs| - 1]);
      var c := cs[|cs| - 1];
      assert c in cs && Handled(cfg, teams, c);
      assert Handled(cfg, prev.0, c);
      (Credit(cfg, prev.0, c), prev.1 || FirstMatch(cfg, prev.0, c).Some?)
  }

  /** `Team.key_for_sort`. */
  function KeyForSort(t: Team): (int, int)
  {
    (t.score, t.prevScore)
  }

  /** Lexicographic `>=` on sort keys. */
  predicate KeyAtLeast(a: Team, b: Team)
  {
    KeyForSort(a).0 > KeyForSort(b).0 || (KeyForSort(a).0 == KeyForSort(b).0 && KeyForSort(a).1 >= KeyForSort(b).1)
  }

  /** The key order is a total preorder, so sorting by it is well defined. */
  lemma KeyOrderIsTotalPreorder(a: Team, b: Team, c: Team)
    ensures KeyAtLeast(a, a)
    ensures KeyAtLeast(a, b) || KeyAtLeast(b, a)
    ensures KeyAtLeast(a, b) && KeyAtLeast(b, c) ==> KeyAtLeast(a, c)
    ensures KeyAtLeast(a, b) && KeyAtLeast(b, a) <==> KeyForSort(a) == KeyForSort(b)
  {
  }

  /** Non-increasing by key. */
  predicate SortedDesc(s: seq<Team>)
  {
    forall i, j :: 0 <= i < j < |s| ==> KeyAtLeast(s[i], s[j])
  }

  /** Places x before the first element whose key it equals or exceeds. */
  function Insert(x: Team, s: seq<Team>): seq<Team>
  {
    if s == [] then [x]
    else if KeyAtLeast(x, s[0]) then [x] + s
    else [s[0]] + Insert(x, s[1..])
  }

  /**
    `teams.sort(key=Team.key_for_sort, reverse=True)`: Python's stable sort,
    highest key first, written as an insertion sort.
  */
  function SortByKeyDesc(s: seq<Team>): seq<Team>
  {
    if s == [] then [] else Insert(s[0], SortByKeyDesc(s[1..]))
  }

  /** The teams having a given key, in list order. */
  function WithKey(s: seq<Team>, k: (int, int)): seq<Team>
  {
    if s == [] then []
    else (if KeyForSort(s[0]) == k then [s[0]] else []) + WithKey(s[1..], k)
  }

  lemma {:induction false} InsertPermutes(x: Team, s: seq<Team>)
    ensures multiset(Insert(x, s)) == multiset(s) + multiset{x}
  {
    if s != [] && !KeyAtLeast(x, s[0]) {
      InsertPermutes(x, s[1..]);
      assert s == [s[0]] + s[1..];
    }
  }

  lemma {:induction false} InsertSorted(x: Team, s: seq<Team>)
    requires SortedDesc(s)
    ensures SortedDesc(Insert(x, s))
  {
    if s != [] && !KeyAtLeast(x, s[0]) {
      InsertSorted(x, s[1..]);
      InsertPermutes(x, s[1..]);
      var r := Insert(x, s[1..]);
      forall j | 0 <= j < |r|
        ensures KeyAtLeast(s[0], r[j])
      {
        assert r[j] in multiset(r);
        assert r[j] == x || r[j] in s[1..];
      }
    }
  }

  /** Inserting x keeps, for every key, the order of the teams having that key, x first. */
  lemma {:induction false} InsertStable(x: Team, s: seq<Team>, k: (int, int))
    ensures WithKey(Insert(x, s), k) == (if KeyForSort(x) == k then [x] else []) + WithKey(s, k)
  {
    if s == [] {
    } else if KeyAtLeast(x, s[0]) {
      assert ([x] + s)[1..] == s;
    } else {
      InsertStable(x, s[1..], k);
      assert ([s[0]] + Insert(x, s[1..]))[1..] == Insert(x, s[1..]);
      assert KeyForSort(x) == k ==> KeyForSort(s[0]) != k;
    }
  }

  /**
    The re-sort of the team list: a permutation, ordered non-increasingly by
    (score, prev_score), and stable: teams with equal keys keep their order.
  */
  lemma {:induction false} SortByKeyDescCorrect(s: seq<Team>)
    ensures multiset(SortByKeyDesc(s)) == multiset(s)
    ensures SortedDesc(SortByKeyDesc(s))
    ensures forall k :: WithKey(SortByKeyDesc(s), k) == WithKey(s, k)
  {
    if s != [] {
      SortByKeyDescCorrect(s[1..]);
      InsertPermutes(s[0], SortByKeyDesc(s[1..]));
      InsertSorted(s[0], SortByKeyDesc(s[1..]));
      assert s == [s[0]] + s[1..];
      forall k
        ensures WithKey(SortByKeyDesc(s), k) == WithKey(s, k)
      {
        InsertStable(s[0], SortByKeyDesc(s[1..]), k);
      }
    }
  }

  /** Sorting moves teams but never changes one, so non-empty UIDs stay non-empty. */
  lemma SortKeepsUids(s: seq<Team>)
    requires UidsNonEmpty(s)
    ensures UidsNonEmpty(SortByKeyDesc(s))
  {
    SortByKeyDescCorrect(s);
    var r := SortByKeyDesc(s);
    forall j | 0 <= j < |r|
      ensures |r[j].uid| > 0
    {
      assert r[j] in multiset(r);
      assert r[j] in s;
    }
  }

  /** The list after `for t in teams: t.prev_score = t.score`. */
  function Synced(s: seq<Team>): seq<Team>
  {
    seq(|s|, i requires 0 <= i < |s| => s[i].(prevScore := s[i].score))
  }

  /**
    After an update the list is sorted by key, every previous score equals
    the score, and the teams are those before the update with only their
    previous scores replaced.
  */
  lemma UpdatedListOrdered(s: seq<Team>)
    ensures |Synced(SortByKeyDesc(s))| == |s|
    ensures SortedDesc(Synced(SortByKeyDesc(s)))
    ensures forall i :: 0 <= i < |s| ==> Synced(SortByKeyDesc(s))[i].prevScore == Synced(SortByKeyDesc(s))[i].score
    ensures multiset(SortByKeyDesc(s)) == multiset(s)
    ensures forall i :: 0 <= i < |s| ==> Synced(SortByKeyDesc(s))[i] == SortByKeyDesc(s)[i].(prevScore := SortByKeyDesc(s)[i].score)
  {
    SortByKeyDescCorrect(s);
    assert |multiset(SortByKeyDesc(s))| == |multiset(s)|;
  }

  /** Reset: every score set to 0, nothing else touched. */
  function ResetScores(s: seq<Team>): seq<Team>
  {
    seq(|s|, i requires 0 <= i < |s| => s[i].(score := 0))
  }

  /** A colour with alpha, as pygame takes it. */
  datatype Rgba = Rgba(r: int, g: int, b: int, a: int)

  const ColorBg1 := Rgba(14, 16, 46, 255)
  const ColorBg2 := Rgba(44, 48, 94, 255)
  const ColorGold := Rgba(255, 221, 0, 255)
  const ColorSilver := Rgba(212, 212, 212, 255)
  const ColorBronze := Rgba(224, 166, 85, 255)
  const ColorText := Rgba(92, 184, 162, 255)

  /** COLORMAP_FG: colours for the first three places. */
  const ColormapFg: map<nat, Rgba> := map[0 := ColorGold, 1 := ColorSilver, 2 := ColorBronze]

  /** `COLORMAP_FG.get(i, COLOR_TEXT)`: the text colour of the team at rank i. */
  function Foreground(rank: nat): (c: Rgba)
    ensures rank == 0 ==> c == ColorGold
    ensures rank == 1 ==> c == ColorSilver
    ensures rank == 2 ==> c == ColorBronze
    ensures rank >= 3 ==> c == ColorText
  {
    if rank in ColormapFg then ColormapFg[rank] else ColorText
  }

  /** `COLOR_BG1 if i & 1 else COLOR_BG2`: the background of row i, by the parity of i. */
  function Background(row: nat): (c: Rgba)
  {
    if row % 2 == 1 then ColorBg1 else ColorBg2
  }

  /** For a non-negative index, `i & 1` is the remainder of i by 2. */
  lemma AndOneIsParity(row: nat)
    requires row < 0x1_0000_0000
    ensures ((row as bv32) & 1) as int == row % 2
  {
  }

  /**
    The row's background is what `i & 1` selects: BG1 exactly for odd rows and
    BG2 exactly for even ones, so neighbouring rows always differ.
  */
  lemma BackgroundAlternates(row: nat)
    ensures row < 0x1_0000_0000 ==> Background(row) == if (row as bv32) & 1 != 0 then ColorBg1 else ColorBg2
    ensures Background(row) == ColorBg1 <==> row % 2 == 1
    ensures Background(row) == ColorBg2 <==> row % 2 == 0
    ensures Background(row) != Background(row + 1)
    ensures Background(row) == Background(row + 2)
  {
    if row < 0x1_0000_0000 {
      AndOneIsParity(row);
    }
  }

  /** The scoreboard application's team list and the scoring part of its frame loop. */
  class App {
    const cfg: MatchConfig
    var teams: seq<Team>

    /** In first-byte mode every UID has a first byte to compare. */
    ghost predicate Valid()
      reads this
    {
      cfg.firstByte ==> UidsNonEmpty(teams)
    }

    /** `App.__init__`: one team per configured (name, uid), scores 0, in list order. */
    constructor (cfg: MatchConfig, roster: seq<(string, seq<bv8>)>)
      requires cfg.firstByte ==> forall i :: 0 <= i < |roster| ==> |roster[i].1| > 0
      ensures Valid() && this.cfg == cfg
      ensures |teams| == |roster|
      ensures forall i :: 0 <= i < |roster| ==> teams[i] == Team(roster[i].0, roster[i].1, 0, 0)
    {
      this.cfg := cfg;
      teams := seq(|roster|, i requires 0 <= i < |roster| => Team(roster[i].0, roster[i].1, 0, 0));
    }

    /**
      The `for t in self.teams` loop for one received datagram: the first
      matching team gains a point, then the loop breaks.
    */
    method ReceiveDatagram(c: seq<bv8>) returns (updated: bool)
      requires Valid() && Handled(cfg, teams, c)
      modifies this
      ensures Valid()
      ensures teams == Credit(cfg, old(teams), c)
      ensures updated <==> FirstMatch(cfg, old(teams), c).Some?
    {
      updated := false;
      var i := 0;
      while i < |teams|
        invariant 0 <= i <= |teams| && teams == old(teams)
        invariant forall j :: 0 <= j < i ==> !Matches(cfg, c, teams[j].uid)
      {
        if Matches(cfg, c, teams[i].uid) {
          teams := teams[i := teams[i].(score := teams[i].score + 1)];
          updated := true;
          return;
        }
        i := i + 1;
      }
    }

    /** `reset_team_scores`: every score becomes 0; names, UIDs, previous scores and order stay. */
    method ResetTeamScores()
      requires Valid()
      modifies this
      ensures Valid()
      ensures teams == ResetScores(old(teams))
      ensures |teams| == |old(teams)|
      ensures forall i :: 0 <= i < |teams| ==> teams[i] == old(teams)[i].(score := 0)
    {
      for i := 0 to |teams|
        invariant |teams| == |old(teams)|
        invariant forall j :: 0 <= j < i ==> teams[j] == old(teams)[j].(score := 0)
        invariant forall j :: i <= j < |teams| ==> teams[j] == old(teams)[j]
      {
        teams := teams[i := teams[i].(score := 0)];
      }
    }

    /**
      After an update: sort by key, highest first (stable), then set every
      previous score to the current score.
    */
    method Resort()
      requires Valid()
      modifies this
      ensures Valid()
      ensures teams == Synced(SortByKeyDesc(old(teams)))
      ensures SortedDesc(teams)
      ensures forall i :: 0 <= i < |teams| ==> teams[i].prevScore == teams[i].score
    {
      var sorted := SortByKeyDesc(teams);
      UpdatedListOrdered(teams);
      if cfg.firstByte {
        SortKeepsUids(teams);
      }
      teams := sorted;
      for i := 0 to |teams|
        invariant |teams| == |sorted|
        invariant forall j :: 0 <= j < i ==> teams[j] == sorted[j].(prevScore := sorted[j].score)
        invariant forall j :: i <= j < |teams| ==> teams[j] == sorted[j]
      {
        teams := teams[i := teams[i].(prevScore := teams[i].score)];
      }
      assert teams == Synced(sorted);
    }

    /**
      The scoring part of one frame of `exec_run`: an optional reset request,
      then every datagram received during the frame, then the re-sort if
      anything changed.
    */
    method RunFrame(resetRequested: bool, datagrams: seq<seq<bv8>>) returns (updated: bool)
      requires Valid()
      requires cfg.firstByte ==> forall c :: c in datagrams ==> |c| > 0
      modifies this
      ensures Valid()
      ensures var start := if resetRequested then ResetScores(old(teams)) else old(teams);
        var mid := CreditAll(cfg, start, datagrams);
        && updated == (resetRequested || mid.1)
        && teams == (if updated then Synced(SortByKeyDesc(mid.0)) else old(teams))
    {
      updated := false;
      if resetRequested {
        updated := true;
        ResetTeamScores();
      }
      ghost var start := teams;
      for k := 0 to |datagrams|
        invariant Valid()
        invariant forall c :: c in datagrams ==> Handled(cfg, start, c)
        invariant (teams, updated) == (CreditAll(cfg, start, datagrams[..k]).0, resetRequested || CreditAll(cfg, start, datagrams[..k]).1)
      {
        assert datagrams[..k + 1][..k] == datagrams[..k];
        assert datagrams[k] in datagrams;
        var u := ReceiveDatagram(datagrams[k]);
        updated := updated || u;
      }
      assert datagrams[..|datagrams|] == datagrams;
      if updated {
        Resort();
      }
    }
  }
}
