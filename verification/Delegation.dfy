/** Bounded, time-limited delegation.

    A chain is accepted by comparing patterns as text.  The lemmas say when that
    comparison is sound, and lift it to whole chains. */
module Delegation {
  import opened Prelude

  datatype DelegationScope = DelegationScope(
    allowedOperations: Option<seq<string>>,
    allowedDomains: Option<seq<string>>,
    resourceScope: Option<string>)

  datatype Grant = Grant(
    id: Uuid,
    issuer: Uuid,
    recipient: Uuid,
    allowedActions: seq<string>,
    resourceScope: seq<string>,
    scope: DelegationScope,
    validFrom: Time,
    validUntil: Time,
    revoked: bool)

  datatype DelegationError =
    | EmptyChain
    | InvalidRoot(root: Uuid)
    | BrokenChain(index: nat)
    | InvalidTerminalAgent(index: nat)
    | InsufficientActionAuthority(index: nat, action: string)
    | InsufficientResourceAuthority(index: nat, resource: string)
    | InvalidTime(index: nat)
    | Revoked(index: nat)

  // ----- patterns

  predicate EndsInStar(pattern: string) {
    pattern != "" && pattern[|pattern| - 1] == '*'
  }

  function Stem(pattern: string): string
    requires EndsInStar(pattern)
  {
    pattern[..|pattern| - 1]
  }

  predicate Wildcard(pattern: string, value: string) {
    EndsInStar(pattern) && Stem(pattern) <= value
  }

  predicate Matches(pattern: string, value: string) {
    pattern == "*" || pattern == value || Wildcard(pattern, value)
  }

  predicate PatternIsCovered(pattern: string, authority: string) {
    authority == "*" || pattern == authority || (EndsInStar(authority) && Stem(authority) <= pattern)
  }

  /** Every value the child pattern admits is admitted by the parent. */
  ghost predicate Includes(parent: string, child: string) {
    forall value :: Matches(child, value) ==> Matches(parent, value)
  }

  /** The one shape the textual comparison gets wrong: the child ends in a star
      and the parent is the child with one more star. */
  predicate ExtraStar(child: string, parent: string) {
    EndsInStar(child) && parent == child + "*"
  }

  predicate SoundCover(child: string, parent: string) {
    PatternIsCovered(child, parent) && !ExtraStar(child, parent)
  }

  /** Coverage is language inclusion, except for the extra-star shape. */
  lemma CoverageIsInclusion(child: string, parent: string)
    ensures Includes(parent, child) <==> SoundCover(child, parent)
  {
    assert Matches(child, child);
    if ExtraStar(child, parent) {
      ExtraStarWidens(child);
    } else if PatternIsCovered(child, parent) {
      forall value | Matches(child, value) ensures Matches(parent, value) {
        CoveredMatch(child, parent, value);
      }
    }
  }

  lemma CoveredMatch(child: string, parent: string, value: string)
    requires PatternIsCovered(child, parent) && !ExtraStar(child, parent) && Matches(child, value)
    ensures Matches(parent, value)
  {
    if parent != "*" && child != parent && child != value {
      // The parent's stem is a proper prefix of the child, hence of its stem.
      assert child == Stem(child) + "*";
      assert parent == Stem(parent) + "*";
      assert Stem(parent) != child;
      assert Stem(parent) <= Stem(child);
    }
  }

  /** With the extra star the parent rejects the child's own stem. */
  lemma ExtraStarWidens(child: string)
    requires EndsInStar(child)
    ensures PatternIsCovered(child, child + "*")
    ensures Matches(child, Stem(child)) && !Matches(child + "*", Stem(child))
  {
    var parent := child + "*";
    assert Stem(parent) == child;
    assert |Stem(child)| < |child| < |parent|;
  }

  // ----- grants and chains

  predicate Admits(patterns: seq<string>, value: string) {
    exists i :: 0 <= i < |patterns| && Matches(patterns[i], value)
  }

  predicate IsLive(grant: Grant, now: Time) {
    !grant.revoked && grant.validFrom <= now <= grant.validUntil
  }

  predicate IsValid(grant: Grant, action: string, resource: string, now: Time) {
    && IsLive(grant, now)
    && Admits(grant.allowedActions, action)
    && Admits(grant.resourceScope, resource)
  }

  /** A pattern stands for itself, and for every extension of what is before its
      last star. */
  ghost predicate Denotes(pattern: string, value: string) {
    pattern == value || exists stem, rest :: pattern == stem + "*" && value == stem + rest
  }

  lemma MatchingIsDenoting(pattern: string, value: string)
    ensures Matches(pattern, value) <==> Denotes(pattern, value)
  {
    if Wildcard(pattern, value) {
      assert pattern == Stem(pattern) + "*" && value == Stem(pattern) + value[|Stem(pattern)|..];
    }
    if pattern == "*" {
      assert pattern == "" + "*" && value == "" + value;
    }
    if stem, rest :| pattern == stem + "*" && value == stem + rest {
      assert Stem(pattern) == stem;
    }
  }

  /** A grant permits an action on a resource exactly while it is unrevoked and within
      its window, ends included, and some pattern of each list stands for it. */
  lemma PermitsExactlyWhen(grant: Grant, action: string, resource: string, now: Time)
    ensures IsValid(grant, action, resource, now) <==>
      && !grant.revoked && grant.validFrom <= now && now <= grant.validUntil
      && (exists i :: 0 <= i < |grant.allowedActions| && Denotes(grant.allowedActions[i], action))
      && (exists i :: 0 <= i < |grant.resourceScope| && Denotes(grant.resourceScope[i], resource))
  {
    forall pattern, value ensures Matches(pattern, value) <==> Denotes(pattern, value) {
      MatchingIsDenoting(pattern, value);
    }
  }

  predicate CoveredBySome(pattern: string, authority: seq<string>) {
    exists i :: 0 <= i < |authority| && PatternIsCovered(pattern, authority[i])
  }

  /** The first pattern outside the authority, if any. */
  function FirstUncovered(patterns: seq<string>, authority: seq<string>): (r: Option<string>)
    ensures r.None? <==> forall i :: 0 <= i < |patterns| ==> CoveredBySome(patterns[i], authority)
    ensures r.Some? ==> r.value in patterns && !CoveredBySome(r.value, authority)
  {
    if patterns == [] then None
    else if !CoveredBySome(patterns[0], authority) then Some(patterns[0])
    else
      assert forall i :: 0 < i < |patterns| ==> patterns[i] == patterns[1..][i - 1];
      FirstUncovered(patterns[1..], authority)
  }

  function ParentActions(grants: seq<Grant>, index: nat): seq<string>
    requires index < |grants|
  {
    if index == 0 then ["*"] else grants[index - 1].allowedActions
  }

  function ParentResources(grants: seq<Grant>, index: nat): seq<string>
    requires index < |grants|
  {
    if index == 0 then ["*"] else grants[index - 1].resourceScope
  }

  function CheckLink(grants: seq<Grant>, index: nat, now: Time): Option<DelegationError>
    requires index < |grants|
  {
    var grant := grants[index];
    if index > 0 && grant.issuer != grants[index - 1].recipient then Some(BrokenChain(index))
    else if grant.revoked then Some(Revoked(index))
    else if !(grant.validFrom <= now <= grant.validUntil && grant.validFrom <= grant.validUntil) then
      Some(InvalidTime(index))
    else
      var action := FirstUncovered(grant.allowedActions, ParentActions(grants, index));
      if action.Some? then Some(InsufficientActionAuthority(index, action.value))
      else
        var resource := FirstUncovered(grant.resourceScope, ParentResources(grants, index));
        if resource.Some? then Some(InsufficientResourceAuthority(index, resource.value)) else None
  }

  function CheckLinks(grants: seq<Grant>, index: nat, now: Time): (r: Option<DelegationError>)
    requires index <= |grants|
    ensures r.None? <==> forall i :: index <= i < |grants| ==> CheckLink(grants, i, now).None?
    decreases |grants| - index
  {
    if index == |grants| then None
    else if CheckLink(grants, index, now).Some? then CheckLink(grants, index, now)
    else CheckLinks(grants, index + 1, now)
  }

  function ValidateChain(root: Uuid, agent: Uuid, grants: seq<Grant>, now: Time): Result<(), DelegationError> {
    if grants == [] then Err(EmptyChain)
    else if grants[0].issuer != root then Err(InvalidRoot(root))
    else
      var link := CheckLinks(grants, 0, now);
      if link.Some? then Err(link.value)
      else if grants[|grants| - 1].recipient != agent then Err(InvalidTerminalAgent(|grants| - 1))
      else Ok(())
  }

  // ----- what lists of patterns admit

  /** The Unicode scalar values, counted: every code point but the surrogates. */
  const CHAR_COUNT: nat := 0x10F800

  function NthChar(i: nat): char
    requires i < CHAR_COUNT
  {
    if i < 0xD800 then i as char else (i + 0x800) as char
  }

  lemma {:induction false} UnusedChar(taken: set<char>, n: nat) returns (i: nat)
    requires |taken| < n <= CHAR_COUNT
    ensures i < n && NthChar(i) !in taken
    decreases n
  {
    var last := NthChar(n - 1);
    if last in taken {
      i := UnusedChar(taken - {last}, n - 1);
    } else {
      i := n - 1;
    }
  }

  /** The characters that some pattern has at position `n`. */
  function CharsAt(patterns: seq<string>, n: nat): (taken: set<char>)
    ensures |taken| <= |patterns|
    ensures forall i :: 0 <= i < |patterns| && |patterns[i]| > n ==> patterns[i][n] in taken
  {
    if patterns == [] then {}
    else
      var rest := CharsAt(patterns[1..], n);
      assert forall i :: 0 < i < |patterns| ==> patterns[i] == patterns[1..][i - 1];
      if |patterns[0]| > n then rest + {patterns[0][n]} else rest
  }

  /** A pattern too short to reach position `n` leaves a character to spare. */
  lemma {:induction false} ShortPatternSpares(patterns: seq<string>, n: nat, j: nat)
    requires j < |patterns| && |patterns[j]| <= n
    ensures |CharsAt(patterns, n)| < |patterns|
  {
    if j == 0 {
    } else {
      ShortPatternSpares(patterns[1..], n, j - 1);
    }
  }

  predicate SoundlyCoveredBySome(child: string, parents: seq<string>) {
    exists j :: 0 <= j < |parents| && SoundCover(child, parents[j])
  }

  /** Every child pattern is covered without relying on an extra star. */
  predicate SoundlyCovered(parent: seq<string>, child: seq<string>) {
    forall i :: 0 <= i < |child| ==> SoundlyCoveredBySome(child[i], parent)
  }

  /** The child admits no value that the parent does not. */
  ghost predicate AdmitsNoMore(parent: seq<string>, child: seq<string>) {
    forall value :: Admits(child, value) ==> Admits(parent, value)
  }

  lemma SoundCoverageAdmits(parent: seq<string>, child: seq<string>)
    requires SoundlyCovered(parent, child)
    ensures AdmitsNoMore(parent, child)
  {
    forall value | Admits(child, value) ensures Admits(parent, value) {
      var i :| 0 <= i < |child| && Matches(child[i], value);
      assert SoundlyCoveredBySome(child[i], parent);
      var j :| 0 <= j < |parent| && SoundCover(child[i], parent[j]);
      CoverageIsInclusion(child[i], parent[j]);
    }
  }

  /** A stem and a character that no parent continues it with tell which parents
      cover the starred pattern: those that admit the value they spell. */
  lemma ProbeFindsCover(child: string, parents: seq<string>, d: char)
    requires EndsInStar(child)
    requires d !in CharsAt(parents, |Stem(child)|)
    requires Admits(parents, Stem(child) + [d])
    ensures SoundlyCoveredBySome(child, parents)
  {
    var value := Stem(child) + [d];
    var j :| 0 <= j < |parents| && Matches(parents[j], value);
    var parent := parents[j];
    assert parent != value by {
      assert value[|Stem(child)|] == d;
    }
    if parent != "*" {
      assert Stem(parent) <= value;
      assert Stem(parent) != value by {
        assert value[|Stem(child)|] == d;
      }
      assert Stem(parent) <= Stem(child) <= child;
    }
    assert SoundCover(child, parent);
  }

  /** One pattern against a list: the list admits all the pattern does only by
      covering it soundly with a single member. */
  lemma AdmittedPatternIsCovered(child: string, parents: seq<string>)
    requires |parents| <= CHAR_COUNT
    requires forall value :: Matches(child, value) ==> Admits(parents, value)
    ensures SoundlyCoveredBySome(child, parents)
  {
    if !EndsInStar(child) {
      assert Matches(child, child);
      var j :| 0 <= j < |parents| && Matches(parents[j], child);
      assert SoundCover(child, parents[j]);
    } else {
      var stem := Stem(child);
      assert Matches(child, stem);
      var j :| 0 <= j < |parents| && Matches(parents[j], stem);
      if |parents[j]| > |stem| {
        // A wildcard whose stem is a prefix of the child's covers the child.
        assert parents[j] == "*" || Stem(parents[j]) <= stem <= child;
        assert SoundCover(child, parents[j]);
      } else {
        ShortPatternSpares(parents, |stem|, j);
        var i := UnusedChar(CharsAt(parents, |stem|), CHAR_COUNT);
        assert Matches(child, stem + [NthChar(i)]);
        ProbeFindsCover(child, parents, NthChar(i));
      }
    }
  }

  /** For parent lists no longer than the alphabet: the child list admits no more
      than the parent list exactly when each of its patterns is soundly covered. */
  lemma AdmissionIsSoundCoverage(parent: seq<string>, child: seq<string>)
    requires |parent| <= CHAR_COUNT
    ensures AdmitsNoMore(parent, child) <==> SoundlyCovered(parent, child)
  {
    if AdmitsNoMore(parent, child) {
      forall i | 0 <= i < |child| ensures SoundlyCoveredBySome(child[i], parent) {
        assert forall value :: Matches(child[i], value) ==> Admits(child, value);
        AdmittedPatternIsCovered(child[i], parent);
      }
    }
    if SoundlyCovered(parent, child) {
      SoundCoverageAdmits(parent, child);
    }
  }

  /** The empty word, and one starred pattern per character. */
  function WholeAlphabet(): (patterns: seq<string>)
    ensures |patterns| == CHAR_COUNT + 1
  {
    [""] + seq(CHAR_COUNT, i requires 0 <= i < CHAR_COUNT => [NthChar(i), '*'])
  }

  function CharIndex(c: char): (i: nat)
    ensures i < CHAR_COUNT && NthChar(i) == c
  {
    if c as int < 0xD800 then c as int else c as int - 0x800
  }

  /** One pattern more than the alphabet and the two part: this list admits every
      value, and so all that "*" does, without any of its patterns covering it
      soundly. */
  lemma WholeAlphabetAdmitsAll()
    ensures AdmitsNoMore(WholeAlphabet(), ["*"]) && !SoundlyCovered(WholeAlphabet(), ["*"])
  {
    var parents := WholeAlphabet();
    forall value ensures Admits(parents, value) {
      if value == "" {
        assert Matches(parents[0], value);
      } else {
        var i := CharIndex(value[0]);
        assert parents[i + 1] == [value[0], '*'];
        assert Stem(parents[i + 1]) <= value;
        assert Matches(parents[i + 1], value);
      }
    }
    assert !SoundlyCoveredBySome("*", parents) by {
      forall j | 0 <= j < |parents| ensures !SoundCover("*", parents[j]) {
        if j > 0 {
          assert parents[j] == [NthChar(j - 1), '*'];
          assert Stem(parents[j]) == [NthChar(j - 1)];
        }
      }
    }
    assert ["*"][0] == "*";
  }

  // ----- authority along a chain

  /** Whatever the last grant permits, every grant of the chain permits. */
  ghost predicate AuthorityFlows(grants: seq<Grant>, now: Time)
    requires grants != []
  {
    forall action, resource, k ::
      0 <= k < |grants| && IsValid(grants[|grants| - 1], action, resource, now) ==>
        IsValid(grants[k], action, resource, now)
  }

  predicate CoversSoundly(parent: Grant, child: Grant) {
    SoundlyCovered(parent.allowedActions, child.allowedActions) &&
      SoundlyCovered(parent.resourceScope, child.resourceScope)
  }

  /** The last grant permits nothing at all, or every grant covers it soundly. */
  predicate SoundToTheLast(grants: seq<Grant>)
    requires grants != []
  {
    var last := grants[|grants| - 1];
    || last.allowedActions == []
    || last.resourceScope == []
    || forall k :: 0 <= k < |grants| ==> CoversSoundly(grants[k], last)
  }

  predicate ListsWithinAlphabet(grants: seq<Grant>) {
    forall k :: 0 <= k < |grants| ==>
      |grants[k].allowedActions| <= CHAR_COUNT && |grants[k].resourceScope| <= CHAR_COUNT
  }

  lemma PatternAdmitsItself(patterns: seq<string>)
    requires patterns != []
    ensures Admits(patterns, patterns[0])
  {
    assert Matches(patterns[0], patterns[0]);
  }

  lemma FlowNeedsCoverage(grants: seq<Grant>, now: Time, k: nat)
    requires k < |grants| && ListsWithinAlphabet(grants) && AuthorityFlows(grants, now)
    requires grants[|grants| - 1].allowedActions != [] && grants[|grants| - 1].resourceScope != []
    requires IsLive(grants[|grants| - 1], now)
    ensures CoversSoundly(grants[k], grants[|grants| - 1])
  {
    var last := grants[|grants| - 1];
    PatternAdmitsItself(last.allowedActions);
    PatternAdmitsItself(last.resourceScope);
    forall action | Admits(last.allowedActions, action) ensures Admits(grants[k].allowedActions, action) {
      assert IsValid(last, action, last.resourceScope[0], now);
      assert IsValid(grants[k], action, last.resourceScope[0], now);
    }
    forall resource | Admits(last.resourceScope, resource) ensures Admits(grants[k].resourceScope, resource) {
      assert IsValid(last, last.allowedActions[0], resource, now);
      assert IsValid(grants[k], last.allowedActions[0], resource, now);
    }
    AdmissionIsSoundCoverage(grants[k].allowedActions, last.allowedActions);
    AdmissionIsSoundCoverage(grants[k].resourceScope, last.resourceScope);
  }

  lemma AcceptedGrantsAreLive(root: Uuid, agent: Uuid, grants: seq<Grant>, now: Time)
    requires ValidateChain(root, agent, grants, now).Ok?
    ensures forall k :: 0 <= k < |grants| ==> IsLive(grants[k], now)
  {
    forall k | 0 <= k < |grants| ensures IsLive(grants[k], now) {
      assert CheckLink(grants, k, now).None?;
    }
  }

  lemma CoverageMakesFlow(grants: seq<Grant>, now: Time)
    requires grants != [] && SoundToTheLast(grants)
    requires forall k :: 0 <= k < |grants| ==> IsLive(grants[k], now)
    ensures AuthorityFlows(grants, now)
  {
    var last := grants[|grants| - 1];
    forall action, resource, k | 0 <= k < |grants| && IsValid(last, action, resource, now)
      ensures IsValid(grants[k], action, resource, now)
    {
      assert CoversSoundly(grants[k], last);
      SoundCoverageAdmits(grants[k].allowedActions, last.allowedActions);
      SoundCoverageAdmits(grants[k].resourceScope, last.resourceScope);
    }
  }

  /** An accepted chain hands down no more than every grant on it permits exactly
      when every grant covers the last one soundly, or the last one is empty. */
  lemma AuthorityFlowsExactlyWhen(root: Uuid, agent: Uuid, grants: seq<Grant>, now: Time)
    requires ValidateChain(root, agent, grants, now).Ok? && ListsWithinAlphabet(grants)
    ensures AuthorityFlows(grants, now) <==> SoundToTheLast(grants)
  {
    AcceptedGrantsAreLive(root, agent, grants, now);
    var last := grants[|grants| - 1];
    if AuthorityFlows(grants, now) && last.allowedActions != [] && last.resourceScope != [] {
      forall k | 0 <= k < |grants| ensures CoversSoundly(grants[k], last) {
        FlowNeedsCoverage(grants, now, k);
      }
    }
    if SoundToTheLast(grants) {
      CoverageMakesFlow(grants, now);
    }
  }

  predicate EndsInTwoStars(pattern: string) {
    |pattern| >= 2 && pattern[|pattern| - 2..] == "**"
  }

  predicate NoDoubleStars(grants: seq<Grant>) {
    forall k :: 0 <= k < |grants| ==>
      && (forall i :: 0 <= i < |grants[k].allowedActions| ==> !EndsInTwoStars(grants[k].allowedActions[i]))
      && (forall i :: 0 <= i < |grants[k].resourceScope| ==> !EndsInTwoStars(grants[k].resourceScope[i]))
  }

  lemma NoExtraStar(child: string, parent: string)
    requires !EndsInTwoStars(parent)
    ensures !ExtraStar(child, parent)
  {
    assert EndsInStar(child) ==> EndsInTwoStars(child + "*");
  }

  lemma CoveredWithoutDoubleStars(parent: seq<string>, child: seq<string>)
    requires FirstUncovered(child, parent).None?
    requires forall i :: 0 <= i < |parent| ==> !EndsInTwoStars(parent[i])
    ensures SoundlyCovered(parent, child)
  {
    forall i | 0 <= i < |child|
      ensures SoundlyCoveredBySome(child[i], parent)
    {
      assert CoveredBySome(child[i], parent);
      var j :| 0 <= j < |parent| && PatternIsCovered(child[i], parent[j]);
      NoExtraStar(child[i], parent[j]);
      assert SoundCover(child[i], parent[j]);
    }
  }

  lemma {:induction false} FlowsWithoutDoubleStars(
      grants: seq<Grant>, now: Time, action: string, resource: string, k: nat)
    requires k < |grants| && NoDoubleStars(grants)
    requires forall i :: 0 <= i < |grants| ==> CheckLink(grants, i, now).None?
    requires IsValid(grants[|grants| - 1], action, resource, now)
    ensures IsValid(grants[k], action, resource, now)
    decreases |grants| - k
  {
    if k == |grants| - 1 {
    } else {
      FlowsWithoutDoubleStars(grants, now, action, resource, k + 1);
      var parent, child := grants[k], grants[k + 1];
      assert CheckLink(grants, k, now).None? && CheckLink(grants, k + 1, now).None?;
      assert ParentActions(grants, k + 1) == parent.allowedActions;
      assert ParentResources(grants, k + 1) == parent.resourceScope;
      CoveredWithoutDoubleStars(parent.allowedActions, child.allowedActions);
      CoveredWithoutDoubleStars(parent.resourceScope, child.resourceScope);
      SoundCoverageAdmits(parent.allowedActions, child.allowedActions);
      SoundCoverageAdmits(parent.resourceScope, child.resourceScope);
    }
  }

  /** A check on the grants alone: without patterns ending in two stars authority
      flows along every accepted chain, whatever the length of its lists. */
  lemma AcceptedChainsWithoutDoubleStarsFlow(root: Uuid, agent: Uuid, grants: seq<Grant>, now: Time)
    requires ValidateChain(root, agent, grants, now).Ok? && NoDoubleStars(grants)
    ensures AuthorityFlows(grants, now)
  {
    forall action, resource, k | 0 <= k < |grants| && IsValid(grants[|grants| - 1], action, resource, now)
      ensures IsValid(grants[k], action, resource, now)
    {
      FlowsWithoutDoubleStars(grants, now, action, resource, k);
    }
  }

  /** What one link must satisfy. */
  predicate LinkHolds(grants: seq<Grant>, k: nat, now: Time)
    requires k < |grants|
  {
    && (k > 0 ==> grants[k].issuer == grants[k - 1].recipient)
    && !grants[k].revoked
    && grants[k].validFrom <= now <= grants[k].validUntil
    && (forall i :: 0 <= i < |grants[k].allowedActions| ==>
      CoveredBySome(grants[k].allowedActions[i], ParentActions(grants, k)))
    && (forall i :: 0 <= i < |grants[k].resourceScope| ==>
      CoveredBySome(grants[k].resourceScope[i], ParentResources(grants, k)))
  }

  lemma CheckLinkHolds(grants: seq<Grant>, k: nat, now: Time)
    requires k < |grants|
    ensures CheckLink(grants, k, now).None? <==> LinkHolds(grants, k, now)
  {
  }

  /** A chain is accepted exactly when it runs unbroken from the root to the
      executing agent and every link on it holds. */
  lemma AcceptedChains(root: Uuid, agent: Uuid, grants: seq<Grant>, now: Time)
    ensures ValidateChain(root, agent, grants, now).Ok? <==>
      && grants != []
      && grants[0].issuer == root
      && grants[|grants| - 1].recipient == agent
      && (forall k :: 0 <= k < |grants| ==> LinkHolds(grants, k, now))
  {
    forall k | 0 <= k < |grants|
      ensures CheckLink(grants, k, now).None? <==> LinkHolds(grants, k, now)
    {
      CheckLinkHolds(grants, k, now);
    }
  }

  /** The error names a fault the link has. */
  predicate LinkFault(grants: seq<Grant>, k: nat, now: Time, error: DelegationError)
    requires k < |grants|
  {
    match error
    case BrokenChain(i) => i == k && k > 0 && grants[k].issuer != grants[k - 1].recipient
    case Revoked(i) => i == k && grants[k].revoked
    case InvalidTime(i) => i == k && (now < grants[k].validFrom || grants[k].validUntil < now)
    case InsufficientActionAuthority(i, action) =>
      && i == k && action in grants[k].allowedActions
      && k > 0 && !CoveredBySome(action, grants[k - 1].allowedActions)
    case InsufficientResourceAuthority(i, resource) =>
      && i == k && resource in grants[k].resourceScope
      && k > 0 && !CoveredBySome(resource, grants[k - 1].resourceScope)
    case _ => false
  }

  /** Of the links from `index` on, the one at `k` is the first at fault. */
  predicate FirstFault(grants: seq<Grant>, index: nat, k: nat, now: Time, error: DelegationError)
    requires k < |grants|
  {
    LinkFault(grants, k, now, error) && forall i :: index <= i < k ==> LinkHolds(grants, i, now)
  }

  lemma LinkErrorsAreJust(grants: seq<Grant>, k: nat, now: Time)
    requires k < |grants| && CheckLink(grants, k, now).Some?
    ensures LinkFault(grants, k, now, CheckLink(grants, k, now).value)
  {
    forall pattern | k == 0 ensures CoveredBySome(pattern, ["*"]) {
      CoveredByOnly(pattern, "*");
    }
  }

  /** A refusal says what is wrong: no grants, a foreign root, a foreign agent at
      the end of an otherwise sound chain, or a fault of the first faulty link. */
  lemma RefusalsAreJust(root: Uuid, agent: Uuid, grants: seq<Grant>, now: Time)
    requires ValidateChain(root, agent, grants, now).Err?
    ensures var error := ValidateChain(root, agent, grants, now).error;
      || (error == EmptyChain && grants == [])
      || (grants != [] && error == InvalidRoot(root) && grants[0].issuer != root)
      || (&& grants != [] && error == InvalidTerminalAgent(|grants| - 1) && grants[|grants| - 1].recipient != agent
          && forall k :: 0 <= k < |grants| ==> LinkHolds(grants, k, now))
      || exists k :: 0 <= k < |grants| && FirstFault(grants, 0, k, now, error)
  {
    if grants != [] && grants[0].issuer == root {
      if CheckLinks(grants, 0, now).Some? {
        FirstFaulty(grants, 0, now);
      } else {
        forall k | 0 <= k < |grants| ensures LinkHolds(grants, k, now) {
          CheckLinkHolds(grants, k, now);
        }
      }
    }
  }

  lemma {:induction false} FirstFaulty(grants: seq<Grant>, index: nat, now: Time)
    requires index <= |grants| && CheckLinks(grants, index, now).Some?
    ensures exists k :: index <= k < |grants| && FirstFault(grants, index, k, now, CheckLinks(grants, index, now).value)
    decreases |grants| - index
  {
    hide LinkHolds;
    hide LinkFault;
    if CheckLink(grants, index, now).Some? {
      LinkErrorsAreJust(grants, index, now);
      assert FirstFault(grants, index, index, now, CheckLink(grants, index, now).value);
    } else {
      CheckLinkHolds(grants, index, now);
      FirstFaulty(grants, index + 1, now);
      var error := CheckLinks(grants, index, now).value;
      var k :| index + 1 <= k < |grants| && FirstFault(grants, index + 1, k, now, error);
      assert FirstFault(grants, index, k, now, error);
    }
  }

  /** For every stem there is an accepted two-grant chain whose last grant allows
      an action that the grant above it does not. */
  lemma ExtraStarChain(child: string, root: Uuid, manager: Uuid, agent: Uuid, now: Time, scope: DelegationScope)
    requires EndsInStar(child)
    ensures var grants := [
        Grant(0, root, manager, [child + "*"], ["*"], scope, now, now, false),
        Grant(1, manager, agent, [child], ["*"], scope, now, now, false)];
      && ValidateChain(root, agent, grants, now).Ok?
      && IsValid(grants[1], Stem(child), "", now)
      && !IsValid(grants[0], Stem(child), "", now)
      && !AuthorityFlows(grants, now)
  {
    var grants := [
      Grant(0, root, manager, [child + "*"], ["*"], scope, now, now, false),
      Grant(1, manager, agent, [child], ["*"], scope, now, now, false)];
    ExtraStarWidens(child);
    CoveredByOnly(child + "*", "*");
    CoveredByOnly("*", "*");
    CoveredByOnly(child, child + "*");
    assert LinkHolds(grants, 0, now) && LinkHolds(grants, 1, now);
    AcceptedChains(root, agent, grants, now);
    AdmittedByOnly("*", "");
    AdmittedByOnly(child, Stem(child));
    AdmittedByOnly(child + "*", Stem(child));
  }

  lemma CoveredByOnly(pattern: string, authority: string)
    ensures CoveredBySome(pattern, [authority]) <==> PatternIsCovered(pattern, authority)
  {
    assert [authority][0] == authority;
  }

  lemma AdmittedByOnly(pattern: string, value: string)
    ensures Admits([pattern], value) <==> Matches(pattern, value)
  {
    assert [pattern][0] == pattern;
  }

  // ----- the operation scope

  predicate ScopeAllowsOperation(scope: DelegationScope, operation: string, domain: string) {
    && (scope.allowedDomains.Some? ==> domain in scope.allowedDomains.value)
    && (scope.allowedOperations.Some? ==>
      exists i :: 0 <= i < |scope.allowedOperations.value|
        && (scope.allowedOperations.value[i] == operation || Wildcard(scope.allowedOperations.value[i], operation)))
  }

  function WithScopes(grants: seq<Grant>, scopes: seq<DelegationScope>): seq<Grant>
    requires |scopes| == |grants|
  {
    seq(|grants|, i requires 0 <= i < |grants| => grants[i].(scope := scopes[i]))
  }

  /** The operation patterns of a scope; without a list it holds all. */
  function Operations(scope: DelegationScope): seq<string> {
    if scope.allowedOperations.None? then ["*"] else scope.allowedOperations.value
  }

  predicate DomainAllowed(scope: DelegationScope, domain: string) {
    scope.allowedDomains.Some? ==> domain in scope.allowedDomains.value
  }

  lemma ScopeIsAdmission(scope: DelegationScope, operation: string, domain: string)
    ensures ScopeAllowsOperation(scope, operation, domain) <==>
      DomainAllowed(scope, domain) && Admits(Operations(scope), operation)
  {
    if scope.allowedOperations.None? {
      AdmittedByOnly("*", operation);
    } else {
      var patterns := scope.allowedOperations.value;
      forall i | 0 <= i < |patterns|
        ensures Matches(patterns[i], operation) <==> patterns[i] == operation || Wildcard(patterns[i], operation)
      {
        assert Stem("*") == "";
      }
    }
  }

  /** Whatever one scope allows, every scope of the chain allows. */
  ghost predicate ScopeFlows(grants: seq<Grant>, child: DelegationScope) {
    forall operation, domain, k :: 0 <= k < |grants| && ScopeAllowsOperation(child, operation, domain) ==>
      ScopeAllowsOperation(grants[k].scope, operation, domain)
  }

  predicate DomainsWithin(parent: DelegationScope, child: DelegationScope) {
    parent.allowedDomains.None? ||
    (child.allowedDomains.Some? &&
     forall i :: 0 <= i < |child.allowedDomains.value| ==>
       child.allowedDomains.value[i] in parent.allowedDomains.value)
  }

  predicate ScopeWithin(parent: DelegationScope, child: DelegationScope) {
    DomainsWithin(parent, child) && SoundlyCovered(Operations(parent), Operations(child))
  }

  /** The scope allows nothing at all, or lies within every scope of the chain. */
  predicate ScopesNarrow(grants: seq<Grant>, child: DelegationScope) {
    || child.allowedDomains == Some([])
    || child.allowedOperations == Some([])
    || forall k :: 0 <= k < |grants| ==> ScopeWithin(grants[k].scope, child)
  }

  predicate OperationsWithinAlphabet(grants: seq<Grant>) {
    forall k :: 0 <= k < |grants| ==> |Operations(grants[k].scope)| <= CHAR_COUNT
  }

  /** A domain longer than all those listed is not among them. */
  lemma {:induction false} UnlistedDomain(domains: seq<string>) returns (domain: string)
    ensures domain != "" && domain !in domains
    ensures forall i :: 0 <= i < |domains| ==> |domains[i]| < |domain|
  {
    if domains == [] {
      domain := "a";
    } else {
      var rest := UnlistedDomain(domains[1..]);
      domain := rest + domains[0];
      assert forall i :: 0 < i < |domains| ==> domains[i] == domains[1..][i - 1];
    }
  }

  /** A domain the child allows, outside the parent's if it can be. */
  lemma ProbeDomain(parent: DelegationScope, child: DelegationScope) returns (domain: string)
    requires child.allowedDomains != Some([])
    ensures DomainAllowed(child, domain)
    ensures !DomainsWithin(parent, child) ==> !DomainAllowed(parent, domain)
  {
    if DomainsWithin(parent, child) || child.allowedDomains.None? {
      if child.allowedDomains.Some? {
        domain := child.allowedDomains.value[0];
      } else {
        domain := UnlistedDomain(if parent.allowedDomains.Some? then parent.allowedDomains.value else []);
      }
    } else {
      var i :| 0 <= i < |child.allowedDomains.value|
        && child.allowedDomains.value[i] !in parent.allowedDomains.value;
      domain := child.allowedDomains.value[i];
    }
  }

  lemma FlowNeedsNarrowing(grants: seq<Grant>, child: DelegationScope, k: nat)
    requires k < |grants| && OperationsWithinAlphabet(grants) && ScopeFlows(grants, child)
    requires child.allowedDomains != Some([]) && child.allowedOperations != Some([])
    ensures ScopeWithin(grants[k].scope, child)
  {
    var parent := grants[k].scope;
    var domain := ProbeDomain(parent, child);
    PatternAdmitsItself(Operations(child));
    forall operation | Admits(Operations(child), operation)
      ensures DomainAllowed(parent, domain) && Admits(Operations(parent), operation)
    {
      ScopeIsAdmission(child, operation, domain);
      ScopeIsAdmission(parent, operation, domain);
      assert ScopeAllowsOperation(grants[k].scope, operation, domain);
    }
    AdmissionIsSoundCoverage(Operations(parent), Operations(child));
  }

  lemma NarrowingMakesFlow(grants: seq<Grant>, child: DelegationScope)
    requires ScopesNarrow(grants, child)
    ensures ScopeFlows(grants, child)
  {
    forall operation, domain, k | 0 <= k < |grants| && ScopeAllowsOperation(child, operation, domain)
      ensures ScopeAllowsOperation(grants[k].scope, operation, domain)
    {
      ScopeIsAdmission(child, operation, domain);
      ScopeIsAdmission(grants[k].scope, operation, domain);
      assert ScopeWithin(grants[k].scope, child);
      SoundCoverageAdmits(Operations(grants[k].scope), Operations(child));
    }
  }

  /** A scope, such as that of the last grant, allows no more than every scope of
      the chain exactly when it lies within each of them, or allows nothing. */
  lemma ScopeFlowsExactlyWhen(grants: seq<Grant>, child: DelegationScope)
    requires OperationsWithinAlphabet(grants)
    ensures ScopeFlows(grants, child) <==> ScopesNarrow(grants, child)
  {
    if ScopeFlows(grants, child) && child.allowedDomains != Some([]) && child.allowedOperations != Some([]) {
      forall k | 0 <= k < |grants| ensures ScopeWithin(grants[k].scope, child) {
        FlowNeedsNarrowing(grants, child, k);
      }
    }
    if ScopesNarrow(grants, child) {
      NarrowingMakesFlow(grants, child);
    }
  }

  // ----- the two ways execution consults scopes

  /** Governed execution names the last grant and asks every scope. */
  predicate GovernedScope(grants: seq<Grant>, id: Uuid, operation: string, domain: string) {
    && grants != [] && grants[|grants| - 1].id == id
    && forall k :: 0 <= k < |grants| ==> ScopeAllowsOperation(grants[k].scope, operation, domain)
  }

  /** The first grant with that id. */
  function FindGrant(grants: seq<Grant>, id: Uuid): (r: Option<Grant>)
    ensures r.Some? ==> r.value in grants && r.value.id == id
    ensures r.None? ==> forall k :: 0 <= k < |grants| ==> grants[k].id != id
  {
    if grants == [] then None
    else if grants[0].id == id then Some(grants[0])
    else FindGrant(grants[1..], id)
  }

  /** Other execution asks the scope of the named grant alone. */
  predicate NamedScope(grants: seq<Grant>, id: Uuid, operation: string, domain: string) {
    var grant := FindGrant(grants, id);
    grant.Some? && ScopeAllowsOperation(grant.value.scope, operation, domain)
  }

  predicate DistinctGrantIds(grants: seq<Grant>) {
    forall i, j :: 0 <= i < j < |grants| ==> grants[i].id != grants[j].id
  }

  lemma {:induction false} LastIsFound(grants: seq<Grant>)
    requires grants != [] && DistinctGrantIds(grants)
    ensures FindGrant(grants, grants[|grants| - 1].id) == Some(grants[|grants| - 1])
  {
    if |grants| == 1 {
    } else {
      LastIsFound(grants[1..]);
    }
  }

  /** Naming the last grant's id, the two agree on every operation and domain
      exactly when the scope of the grant found lies within every scope of the
      chain; where ids are distinct, that grant is the last. */
  lemma ScopeChecksAgreeExactlyWhen(grants: seq<Grant>)
    requires grants != [] && OperationsWithinAlphabet(grants)
    ensures var last := grants[|grants| - 1];
      var named := FindGrant(grants, last.id);
      && named.Some?
      && (DistinctGrantIds(grants) ==> named.value == last)
      && (forall id, operation, domain :: id != last.id ==> !GovernedScope(grants, id, operation, domain))
      && ((forall operation, domain ::
             GovernedScope(grants, last.id, operation, domain) <==> NamedScope(grants, last.id, operation, domain))
          <==> ScopesNarrow(grants, named.value.scope))
  {
    var last := grants[|grants| - 1];
    var named := FindGrant(grants, last.id).value.scope;
    if DistinctGrantIds(grants) {
      LastIsFound(grants);
    }
    ScopeFlowsExactlyWhen(grants, named);
    if ScopesNarrow(grants, named) {
      forall operation, domain
        ensures GovernedScope(grants, last.id, operation, domain) <==> NamedScope(grants, last.id, operation, domain)
      {
        assert ScopeAllowsOperation(named, operation, domain) ==>
          forall k :: 0 <= k < |grants| ==> ScopeAllowsOperation(grants[k].scope, operation, domain);
      }
    } else {
      var operation, domain, k :| 0 <= k < |grants|
        && ScopeAllowsOperation(named, operation, domain)
        && !ScopeAllowsOperation(grants[k].scope, operation, domain);
      assert NamedScope(grants, last.id, operation, domain);
      assert !GovernedScope(grants, last.id, operation, domain);
    }
  }

  /** For every operation there is an accepted chain whose last grant's scope
      allows it although the scope above forbids it. */
  lemma ScopeMayWiden(root: Uuid, manager: Uuid, agent: Uuid, now: Time, operation: string, domain: string)
    ensures var none, any := DelegationScope(Some([]), None, None), DelegationScope(None, None, None);
      var grants := [
        Grant(0, root, manager, ["*"], ["*"], none, now, now, false),
        Grant(1, manager, agent, ["*"], ["*"], any, now, now, false)];
      && ValidateChain(root, agent, grants, now).Ok?
      && ScopeAllowsOperation(grants[1].scope, operation, domain)
      && !ScopeAllowsOperation(grants[0].scope, operation, domain)
      && NamedScope(grants, 1, operation, domain) && !GovernedScope(grants, 1, operation, domain)
  {
    var none, any := DelegationScope(Some([]), None, None), DelegationScope(None, None, None);
    var grants := [
      Grant(0, root, manager, ["*"], ["*"], none, now, now, false),
      Grant(1, manager, agent, ["*"], ["*"], any, now, now, false)];
    CoveredByOnly("*", "*");
    assert LinkHolds(grants, 0, now) && LinkHolds(grants, 1, now);
    AcceptedChains(root, agent, grants, now);
    LastIsFound(grants);
  }

  /** The operation scope takes no part in chain validation: replacing every
      scope in the chain by any other changes nothing. */
  lemma {:induction false} ScopesAreNotCompared(
      root: Uuid, agent: Uuid, grants: seq<Grant>, scopes: seq<DelegationScope>, now: Time)
    requires |scopes| == |grants|
    ensures ValidateChain(root, agent, WithScopes(grants, scopes), now) == ValidateChain(root, agent, grants, now)
  {
    LinksIgnoreScopes(grants, scopes, 0, now);
  }

  lemma {:induction false} LinksIgnoreScopes(grants: seq<Grant>, scopes: seq<DelegationScope>, index: nat, now: Time)
    requires |scopes| == |grants| && index <= |grants|
    ensures CheckLinks(WithScopes(grants, scopes), index, now) == CheckLinks(grants, index, now)
    decreases |grants| - index
  {
    if index < |grants| {
      LinksIgnoreScopes(grants, scopes, index + 1, now);
      assert CheckLink(WithScopes(grants, scopes), index, now) == CheckLink(grants, index, now);
    }
  }
}
