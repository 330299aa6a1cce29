/**
Counting blocked_by links (dependencyCases, dependencyDiagnosticCases, dependencySummary and linkAsOf in
internal/investigation/analysisfacts/analysis.go): every link is counted once and in one place.
*/
module DependencyFacts {
  import opened Wrappers

  type Name = nat

  datatype Pair = Pair(source: Name, target: Name)

  /** A bound that is present may still not parse. */
  datatype Bound = NoBound | Unparsable | At(instant: int)

  datatype Temporal = ObservedAtReference | KnownInterval | OtherTemporal

  datatype Link = Link(id: Name, pair: Pair, blockedBy: bool, explicit: bool, temporal: Temporal,
                       validFrom: Bound, validTo: Bound)

  /** Absent when the bundle has no readable reference instant. */
  type Reference = Option<int>

  // ----- Which links hold at the reference -----

  predicate LinkAsOf(l: Link, ref: Reference) {
    if ref.None? then false
    else if l.temporal.OtherTemporal? then false
    else if !l.validFrom.NoBound? && (l.validFrom.Unparsable? || ref.value < l.validFrom.instant) then false
    else if !l.validTo.NoBound? && (l.validTo.Unparsable? || ref.value >= l.validTo.instant) then false
    else if l.temporal.KnownInterval? && (l.validFrom.NoBound? || l.validTo.NoBound?) then false
    else true
  }

  /** The instant t is at or after a readable start, and before a readable end, where there are such bounds. */
  predicate Holds(l: Link, t: int) {
    && (l.validFrom.NoBound? || (l.validFrom.At? && l.validFrom.instant <= t))
    && (l.validTo.NoBound? || (l.validTo.At? && t < l.validTo.instant))
  }

  /** A link holds at the reference when it was observed there, or when both its bounds are known and enclose it. */
  lemma HoldsAtReference(l: Link, ref: Reference)
    ensures LinkAsOf(l, ref) <==>
      && ref.Some? && Holds(l, ref.value)
      && (l.temporal.ObservedAtReference? || (l.temporal.KnownInterval? && l.validFrom.At? && l.validTo.At?))
  {
  }

  /** Every blocked_by link is counted as eligible or listed with the one reason that applies first. */
  lemma EveryReasonMeans(l: Link, ref: Reference)
    requires l.blockedBy
    ensures Eligible(l, ref) != Diagnosed(l, ref)
    ensures Diagnosed(l, ref) ==>
      match ReasonOf(l, ref)
      case NotExplicit => !l.explicit
      case NoReference => l.explicit && ref == None
      case NotTemporal => l.explicit && ref.Some? && l.temporal.OtherTemporal?
      case IncompleteInterval =>
        l.explicit && ref.Some? && l.temporal.KnownInterval? && (l.validFrom.NoBound? || l.validTo.NoBound?)
      case OutsideInterval =>
        && l.explicit && ref.Some? && !l.temporal.OtherTemporal? && l.validFrom.At? && l.validTo.At?
        && !(l.validFrom.instant <= ref.value < l.validTo.instant)
      case Ambiguous =>
        && l.explicit && ref.Some? && !l.temporal.OtherTemporal?
        && !(l.validFrom.At? && l.validTo.At?) && !Holds(l, ref.value)
  {
  }

  predicate Eligible(l: Link, ref: Reference) {
    l.blockedBy && l.explicit && LinkAsOf(l, ref)
  }

  predicate Diagnosed(l: Link, ref: Reference) {
    l.blockedBy && !(l.explicit && LinkAsOf(l, ref))
  }

  datatype Reason = NotExplicit | NoReference | NotTemporal | IncompleteInterval | OutsideInterval | Ambiguous

  predicate OutsideKnownInterval(l: Link, ref: int) {
    l.validFrom.At? && l.validTo.At? && (ref < l.validFrom.instant || ref >= l.validTo.instant)
  }

  /** Why a link was left out of the eligible ones. */
  function ReasonOf(l: Link, ref: Reference): Reason {
    if !l.explicit then NotExplicit
    else if ref.None? then NoReference
    else if l.temporal.OtherTemporal? then NotTemporal
    else if l.temporal.KnownInterval? && (l.validFrom.NoBound? || l.validTo.NoBound?) then IncompleteInterval
    else if OutsideKnownInterval(l, ref.value) then OutsideInterval
    else Ambiguous
  }

  /**
  The catch-all reason, "invalid or ambiguous", is right for a bound that does not parse, but it is also
  given to a link with one readable bound alone that simply is not valid yet, or not any more.
  */
  lemma AmbiguousMeans(l: Link, ref: int)
    requires Diagnosed(l, Some(ref))
    ensures ReasonOf(l, Some(ref)).Ambiguous? <==>
            && l.explicit && !l.temporal.OtherTemporal?
            && (if l.temporal.KnownInterval? then
                  && !l.validFrom.NoBound? && !l.validTo.NoBound?
                  && (l.validFrom.Unparsable? || l.validTo.Unparsable?)
                else
                  || l.validFrom.Unparsable? || l.validTo.Unparsable?
                  || (l.validTo.NoBound? && ref < l.validFrom.instant)
                  || (l.validFrom.NoBound? && ref >= l.validTo.instant))
  {
  }

  // ----- Grouping -----

  function Filter(links: seq<Link>, keep: Link -> bool): seq<Link> {
    if links == [] then []
    else
      var before := Filter(links[..|links| - 1], keep);
      if keep(links[|links| - 1]) then before + [links[|links| - 1]] else before
  }

  /** Some pairs with their links, in the order of the bundle. */
  type Groups = map<Pair, seq<Link>>

  function OfPair(links: seq<Link>, p: Pair): seq<Link> {
    Filter(links, (l: Link) => l.pair == p)
  }

  /** Each pair that occurs has exactly its links; no group is empty. */
  ghost predicate IsGrouping(groups: Groups, links: seq<Link>) {
    && (forall p | p in groups :: groups[p] == OfPair(links, p) && groups[p] != [])
    && (forall l | l in links :: l.pair in groups)
  }

  lemma OfPairSnoc(links: seq<Link>, l: Link, p: Pair)
    ensures OfPair(links + [l], p) == if l.pair == p then OfPair(links, p) + [l] else OfPair(links, p)
  {
    assert (links + [l])[..|links|] == links;
  }

  lemma {:induction false} NoLinksOfPair(links: seq<Link>, p: Pair)
    ensures OfPair(links, p) == [] <==> forall l | l in links :: l.pair != p
  {
    if links != [] {
      NoLinksOfPair(links[..|links| - 1], p);
      assert links == links[..|links| - 1] + [links[|links| - 1]];
    }
  }

  lemma FilterSnoc(links: seq<Link>, l: Link, keep: Link -> bool)
    ensures Filter(links + [l], keep) == if keep(l) then Filter(links, keep) + [l] else Filter(links, keep)
  {
    assert (links + [l])[..|links|] == links;
  }

  /** Adding a link adds it to the group of its pair. */
  lemma GroupingExtends(groups: Groups, links: seq<Link>, l: Link)
    requires IsGrouping(groups, links)
    ensures var own := if l.pair in groups then groups[l.pair] else [];
            IsGrouping(groups[l.pair := own + [l]], links + [l])
  {
    var own := if l.pair in groups then groups[l.pair] else [];
    var after := groups[l.pair := own + [l]];
    NoLinksOfPair(links, l.pair);
    forall p | p in after ensures after[p] == OfPair(links + [l], p) && after[p] != [] {
      OfPairSnoc(links, l, p);
    }
  }

  method GroupEligible(links: seq<Link>, ref: Reference) returns (groups: Groups)
    ensures IsGrouping(groups, Filter(links, (l: Link) => Eligible(l, ref)))
  {
    groups := map[];
    ghost var keep := (l: Link) => Eligible(l, ref);
    for i := 0 to |links|
      invariant IsGrouping(groups, Filter(links[..i], keep))
    {
      var l := links[i];
      assert links[..i + 1] == links[..i] + [l];
      FilterSnoc(links[..i], l, keep);
      if !l.blockedBy || !l.explicit || !LinkAsOf(l, ref) {
        continue;
      }
      GroupingExtends(groups, Filter(links[..i], keep), l);
      groups := groups[l.pair := (if l.pair in groups then groups[l.pair] else []) + [l]];
    }
    assert links[..|links|] == links;
  }

  method GroupDiagnosed(links: seq<Link>, ref: Reference) returns (groups: Groups)
    ensures IsGrouping(groups, Filter(links, (l: Link) => Diagnosed(l, ref)))
  {
    groups := map[];
    ghost var keep := (l: Link) => Diagnosed(l, ref);
    for i := 0 to |links|
      invariant IsGrouping(groups, Filter(links[..i], keep))
    {
      var l := links[i];
      assert links[..i + 1] == links[..i] + [l];
      FilterSnoc(links[..i], l, keep);
      if !l.blockedBy || (l.explicit && LinkAsOf(l, ref)) {
        continue;
      }
      GroupingExtends(groups, Filter(links[..i], keep), l);
      groups := groups[l.pair := (if l.pair in groups then groups[l.pair] else []) + [l]];
    }
    assert links[..|links|] == links;
  }

  /** The summary metrics: links, distinct pairs, distinct blocked subjects. */
  function PairsOf(links: seq<Link>): set<Pair> {
    set l | l in links :: l.pair
  }

  function SubjectsOf(links: seq<Link>): set<Name> {
    set l | l in links :: l.pair.source
  }

  lemma PairsSnoc(links: seq<Link>, l: Link)
    ensures PairsOf(links + [l]) == PairsOf(links) + {l.pair}
    ensures SubjectsOf(links + [l]) == SubjectsOf(links) + {l.pair.source}
  {
  }

  method Summary(links: seq<Link>, ref: Reference) returns (rawLinks: nat, pairs: nat, subjects: nat)
    ensures var eligible := Filter(links, (l: Link) => Eligible(l, ref));
            && rawLinks == |eligible|
            && pairs == |PairsOf(eligible)| && subjects == |SubjectsOf(eligible)|
  {
    ghost var keep := (l: Link) => Eligible(l, ref);
    var distinct: set<Pair>, sources: set<Name> := {}, {};
    rawLinks := 0;
    for i := 0 to |links|
      invariant rawLinks == |Filter(links[..i], keep)|
      invariant distinct == PairsOf(Filter(links[..i], keep))
      invariant sources == SubjectsOf(Filter(links[..i], keep))
    {
      var l := links[i];
      assert links[..i + 1] == links[..i] + [l];
      FilterSnoc(links[..i], l, keep);
      PairsSnoc(Filter(links[..i], keep), l);
      if !l.blockedBy || !l.explicit || !LinkAsOf(l, ref) {
        continue;
      }
      rawLinks := rawLinks + 1;
      distinct := distinct + {l.pair};
      sources := sources + {l.pair.source};
    }
    assert links[..|links|] == links;
    pairs, subjects := |distinct|, |sources|;
  }

  // ----- Conservation -----

  /** The dependency case of each pair, in some order. */
  ghost predicate ListsPairs(pairs: seq<Pair>, groups: Groups) {
    && (forall p :: p in pairs <==> p in groups)
    && (forall i, j | 0 <= i < j < |pairs| :: pairs[i] != pairs[j])
  }

  /** The sum of the counts that the fact cases report. */
  function Reported(pairs: seq<Pair>, groups: Groups): nat
    requires forall p | p in pairs :: p in groups
  {
    if pairs == [] then 0 else |groups[pairs[0]]| + Reported(pairs[1..], groups)
  }

  function CountOver(pairs: seq<Pair>, links: seq<Link>): nat {
    if pairs == [] then 0 else |OfPair(links, pairs[0])| + CountOver(pairs[1..], links)
  }

  lemma {:induction false} CountOverSnoc(pairs: seq<Pair>, links: seq<Link>, l: Link)
    requires forall i, j | 0 <= i < j < |pairs| :: pairs[i] != pairs[j]
    ensures CountOver(pairs, links + [l]) == CountOver(pairs, links) + if l.pair in pairs then 1 else 0
  {
    if pairs != [] {
      OfPairSnoc(links, l, pairs[0]);
      CountOverSnoc(pairs[1..], links, l);
    }
  }

  lemma {:induction false} CountOverAll(pairs: seq<Pair>, links: seq<Link>)
    requires forall i, j | 0 <= i < j < |pairs| :: pairs[i] != pairs[j]
    requires forall l | l in links :: l.pair in pairs
    ensures CountOver(pairs, links) == |links|
  {
    if links == [] {
      CountOverNone(pairs);
    } else {
      var n := |links| - 1;
      CountOverAll(pairs, links[..n]);
      assert links == links[..n] + [links[n]];
      CountOverSnoc(pairs, links[..n], links[n]);
    }
  }

  lemma {:induction false} CountOverNone(pairs: seq<Pair>)
    ensures CountOver(pairs, []) == 0
  {
    if pairs != [] { CountOverNone(pairs[1..]); }
  }

  lemma {:induction false} ReportedIsCount(pairs: seq<Pair>, groups: Groups, links: seq<Link>)
    requires IsGrouping(groups, links) && forall p | p in pairs :: p in groups
    ensures Reported(pairs, groups) == CountOver(pairs, links)
  {
    if pairs != [] { ReportedIsCount(pairs[1..], groups, links); }
  }

  lemma {:induction false} Partitioned(links: seq<Link>, ref: Reference)
    ensures |Filter(links, (l: Link) => Eligible(l, ref))| + |Filter(links, (l: Link) => Diagnosed(l, ref))|
            == |Filter(links, (l: Link) => l.blockedBy)|
  {
    if links != [] { Partitioned(links[..|links| - 1], ref); }
  }

  /**
  Every blocked_by link is counted in exactly one place: what the dependency cases and the diagnostic cases
  report adds up to the number of blocked_by links, and the summary agrees with the dependency cases.
  */
  lemma EveryLinkIsCountedOnce(links: seq<Link>, ref: Reference, eligible: Groups, diagnosed: Groups,
                               cases: seq<Pair>, diagnostics: seq<Pair>)
    requires IsGrouping(eligible, Filter(links, (l: Link) => Eligible(l, ref))) && ListsPairs(cases, eligible)
    requires IsGrouping(diagnosed, Filter(links, (l: Link) => Diagnosed(l, ref))) && ListsPairs(diagnostics, diagnosed)
    ensures Reported(cases, eligible) + Reported(diagnostics, diagnosed) == |Filter(links, (l: Link) => l.blockedBy)|
    ensures Reported(cases, eligible) == |Filter(links, (l: Link) => Eligible(l, ref))|
    ensures eligible.Keys == PairsOf(Filter(links, (l: Link) => Eligible(l, ref)))
    ensures |cases| == |PairsOf(Filter(links, (l: Link) => Eligible(l, ref)))|
    ensures (set p | p in cases :: p.source) == SubjectsOf(Filter(links, (l: Link) => Eligible(l, ref)))
  {
    var chosen := Filter(links, (l: Link) => Eligible(l, ref));
    var rest := Filter(links, (l: Link) => Diagnosed(l, ref));
    ReportedIsCount(cases, eligible, chosen);
    ReportedIsCount(diagnostics, diagnosed, rest);
    CountOverAll(cases, chosen);
    CountOverAll(diagnostics, rest);
    Partitioned(links, ref);
    PairsOfGroups(eligible, chosen);
    DistinctCount(cases);
    assert (set p | p in cases) == eligible.Keys;
    SourcesOfPairs(cases, chosen);
  }

  /** The subjects of the cases are those of the links. */
  lemma SourcesOfPairs(pairs: seq<Pair>, links: seq<Link>)
    requires (set p | p in pairs) == PairsOf(links)
    ensures (set p | p in pairs :: p.source) == SubjectsOf(links)
  {
    var told, linked := (set p | p in pairs), PairsOf(links);
    forall p | p in pairs ensures exists l | l in links :: l.pair == p {
      assert p in told;
      assert p in linked;
    }
    forall l | l in links ensures l.pair in pairs {
      assert l.pair in linked;
      assert l.pair in told;
    }
  }

  lemma PairsOfGroups(groups: Groups, links: seq<Link>)
    requires IsGrouping(groups, links)
    ensures groups.Keys == PairsOf(links)
  {
    forall p | p in groups ensures exists l | l in links :: l.pair == p {
      NoLinksOfPair(links, p);
    }
  }

  lemma {:induction false} DistinctCount(pairs: seq<Pair>)
    requires forall i, j | 0 <= i < j < |pairs| :: pairs[i] != pairs[j]
    ensures |set p | p in pairs| == |pairs|
  {
    if pairs != [] {
      DistinctCount(pairs[1..]);
      assert (set p | p in pairs) == {pairs[0]} + set p | p in pairs[1..];
    }
  }
}
