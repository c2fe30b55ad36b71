/** Expansion of a new test into subtasks (services/api/src/routes/tests.rs). */
module Matrix {
  import opened Wrappers
  import opened Text

  // ---------------------------------------------------------------- distinct values, in order

  ghost predicate Distinct<T(!new)>(s: seq<T>)
  {
    forall i, j :: 0 <= i < j < |s| ==> s[i] != s[j]
  }

  function Members(s: seq<nat>): (r: set<nat>)
    ensures forall x :: x in r <==> x in s
  {
    set x | x in s
  }

  lemma {:induction false} DistinctCardinality(s: seq<nat>)
    requires Distinct(s)
    ensures |Members(s)| == |s|
  {
    if s != [] {
      var init, last := s[..|s| - 1], s[|s| - 1];
      DistinctCardinality(init);
      assert s == init + [last];
      assert Members(s) == Members(init) + {last};
    }
  }

  /** Every value of `s` once, in order of first appearance. */
  function FirstSeen(s: seq<string>): (r: seq<string>)
  {
    if s == [] then []
    else
      var rest := FirstSeen(s[..|s| - 1]);
      var last := s[|s| - 1];
      if last in rest then rest else rest + [last]
  }

  lemma {:induction false} FirstSeenDistinct(s: seq<string>)
    ensures Distinct(FirstSeen(s))
    ensures forall v :: v in FirstSeen(s) <==> v in s
  {
    if s != [] {
      FirstSeenDistinct(s[..|s| - 1]);
      assert s == s[..|s| - 1] + [s[|s| - 1]];
    }
  }

  /** What was kept so far is neither reordered nor dropped by what follows. */
  lemma {:induction false} FirstSeenPrefix(s: seq<string>, n: nat)
    requires n <= |s|
    ensures FirstSeen(s[..n]) <= FirstSeen(s)
  {
    if n == |s| {
      assert s[..n] == s;
    } else {
      FirstSeenPrefix(s[..|s| - 1], n);
      assert s[..|s| - 1][..n] == s[..n];
    }
  }

  function TrimAll(values: seq<string>): (r: seq<string>)
    ensures |r| == |values|
  {
    seq(|values|, i requires 0 <= i < |values| => Trim(values[i]))
  }

  function NonBlank(values: seq<string>): (r: seq<string>)
  {
    if values == [] then []
    else
      var rest, last := NonBlank(values[..|values| - 1]), values[|values| - 1];
      if last == [] then rest else rest + [last]
  }

  /** The value of `dedupe`: trimmed, blanks dropped, first occurrence kept. */
  function Deduped(values: seq<string>): (r: seq<string>)
  {
    FirstSeen(NonBlank(TrimAll(values)))
  }

  lemma {:induction false} NonBlankMembers(values: seq<string>, v: string)
    ensures v in NonBlank(values) <==> v != [] && v in values
  {
    if values != [] {
      NonBlankMembers(values[..|values| - 1], v);
      assert values == values[..|values| - 1] + [values[|values| - 1]];
    }
  }

  lemma FirstSeenStep(s: seq<string>, v: string)
    ensures FirstSeen(s + [v]) == if v in FirstSeen(s) then FirstSeen(s) else FirstSeen(s) + [v]
  {
    assert (s + [v])[..|s|] == s;
  }

  lemma NonBlankStep(s: seq<string>, v: string)
    ensures NonBlank(s + [v]) == if v == [] then NonBlank(s) else NonBlank(s) + [v]
  {
    assert (s + [v])[..|s|] == s;
  }

  lemma TrimAllStep(values: seq<string>, i: nat)
    requires i < |values|
    ensures TrimAll(values[..i + 1]) == TrimAll(values[..i]) + [Trim(values[i])]
  {
  }

  lemma DedupedStep(values: seq<string>, i: nat)
    requires i < |values|
    ensures var v, kept := Trim(values[i]), Deduped(values[..i]);
            Deduped(values[..i + 1]) == if v == [] || v in kept then kept else kept + [v]
  {
    TrimAllStep(values, i);
    NonBlankStep(TrimAll(values[..i]), Trim(values[i]));
    FirstSeenStep(NonBlank(TrimAll(values[..i])), Trim(values[i]));
  }

  /** `dedupe` keeps exactly the non-blank trimmed names, once each. */
  lemma DedupedMembers(values: seq<string>)
    ensures Distinct(Deduped(values))
    ensures forall v :: v in Deduped(values) <==> v != [] && v in TrimAll(values)
  {
    FirstSeenDistinct(NonBlank(TrimAll(values)));
    forall v
      ensures v in NonBlank(TrimAll(values)) <==> v != [] && v in TrimAll(values)
    {
      NonBlankMembers(TrimAll(values), v);
    }
  }

  lemma DedupedOne(name: string)
    requires name != [] && !IsSpace(name[0]) && !IsSpace(name[|name| - 1])
    ensures Deduped([name]) == [name]
  {
    TrimPadded("", name, "");
    assert "" + name + "" == name;
    assert TrimAll([name]) == [name];
    NonBlankStep([], name);
    FirstSeenStep([], name);
    assert [] + [name] == [name];
  }

  /** A name that survived once survives again. */
  lemma DedupedKept(values: seq<string>, name: string)
    requires name in Deduped(values)
    ensures Deduped([name]) == [name]
  {
    DedupedMembers(values);
    assert name in TrimAll(values);
    var i :| 0 <= i < |values| && TrimAll(values)[i] == name;
    TrimmedEnds(values[i]);
    DedupedOne(name);
  }

  method Dedupe(values: seq<string>) returns (r: seq<string>)
    ensures r == Deduped(values)
  {
    r := [];
    var seen: set<string> := {};
    for i := 0 to |values|
      invariant r == Deduped(values[..i])
      invariant forall v :: v in seen <==> v in r
    {
      DedupedStep(values, i);
      var v := Trim(values[i]);
      if v != [] && v !in seen {
        seen := seen + {v};
        r := r + [v];
      }
    }
    assert values[..|values|] == values;
  }

  // ---------------------------------------------------------------- accepting a new test

  /** The body of a creation request; `adapter` stands for what its tool and plugin map to. */
  datatype NewTest = NewTest(host: string, port: int, httpPath: string, adapter: string,
                             groups: seq<string>, sigAlgs: seq<string>)

  datatype Limits = Limits(maxSubtasks: nat, knownGroups: set<string>, knownSigAlgs: set<string>)

  datatype ApiError = HostRequired | PortOutOfRange | NothingSelected | BadPath | TooManySubtasks |
                      UnknownGroups | UnknownSigAlgs

  datatype Axes = Axes(groups: seq<string>, sigAlgs: seq<string>)

  /** The checks of `create_test`, in order. The selection is checked for emptiness before blank
      names are dropped, so an accepted request can have an empty axis. */
  function Accept(body: NewTest, limits: Limits): (r: Result<Axes, ApiError>)
  {
    if Trim(body.host) == [] then Err(HostRequired)
    else if !(1 <= body.port <= 65535) then Err(PortOutOfRange)
    else if body.groups == [] || body.sigAlgs == [] then Err(NothingSelected)
    else if !("/" <= body.httpPath) then Err(BadPath)
    else AcceptAxes(Axes(Deduped(body.groups), Deduped(body.sigAlgs)), limits)
  }

  function AcceptAxes(axes: Axes, limits: Limits): (r: Result<Axes, ApiError>)
  {
    if |axes.groups| * |axes.sigAlgs| > limits.maxSubtasks then Err(TooManySubtasks)
    else if exists g :: g in axes.groups && g !in limits.knownGroups then Err(UnknownGroups)
    else if exists a :: a in axes.sigAlgs && a !in limits.knownSigAlgs then Err(UnknownSigAlgs)
    else Ok(axes)
  }

  lemma AcceptedAxes(body: NewTest, limits: Limits)
    requires Accept(body, limits).Ok?
    ensures Accept(body, limits).value == Axes(Deduped(body.groups), Deduped(body.sigAlgs))
  {
  }

  /** The distinct names of a selection, blanks aside. */
  ghost function Names(values: seq<string>): (r: set<string>)
  {
    (set v | v in values :: Trim(v)) - {""}
  }

  lemma NamesAreDeduped(values: seq<string>)
    ensures |Deduped(values)| == |Names(values)|
    ensures forall v :: v in Deduped(values) <==> v in Names(values)
  {
    var kept := Deduped(values);
    DedupedMembers(values);
    forall v
      ensures v in TrimAll(values) <==> v in set w | w in values :: Trim(w)
    {
      if v in TrimAll(values) {
        var i :| 0 <= i < |values| && TrimAll(values)[i] == v;
        assert values[i] in values;
      }
      if w :| w in values && Trim(w) == v {
        var i :| 0 <= i < |values| && values[i] == w;
        assert TrimAll(values)[i] == v;
      }
    }
    SizeOfDistinct(kept, Names(values));
  }

  lemma {:induction false} SizeOfDistinct(s: seq<string>, names: set<string>)
    requires Distinct(s) && forall v :: v in s <==> v in names
    ensures |names| == |s|
  {
    if s == [] {
      assert names == {};
    } else {
      var init, last := s[..|s| - 1], s[|s| - 1];
      assert s == init + [last];
      SizeOfDistinct(init, names - {last});
    }
  }

  /** What is wrong with the request itself. */
  predicate BadRequest(body: NewTest, e: ApiError)
  {
    match e
    case HostRequired => forall i :: 0 <= i < |body.host| ==> IsSpace(body.host[i])
    case PortOutOfRange => body.port < 1 || body.port > 65535
    case NothingSelected => body.groups == [] || body.sigAlgs == []
    case BadPath => body.httpPath == [] || body.httpPath[0] != '/'
    case _ => false
  }

  /** What is wrong with the selected names, given the limits. */
  ghost predicate BadSelection(groups: set<string>, sigAlgs: set<string>, limits: Limits, e: ApiError)
  {
    match e
    case TooManySubtasks => |groups| * |sigAlgs| > limits.maxSubtasks
    case UnknownGroups => !(groups <= limits.knownGroups)
    case UnknownSigAlgs => !(sigAlgs <= limits.knownSigAlgs)
    case _ => false
  }

  ghost predicate Faulty(body: NewTest, limits: Limits, e: ApiError)
  {
    BadRequest(body, e) || BadSelection(Names(body.groups), Names(body.sigAlgs), limits, e)
  }

  /** When a fault is looked for. */
  function Place(e: ApiError): (n: nat)
  {
    match e
    case HostRequired => 0
    case PortOutOfRange => 1
    case NothingSelected => 2
    case BadPath => 3
    case TooManySubtasks => 4
    case UnknownGroups => 5
    case UnknownSigAlgs => 6
  }

  ghost predicate FirstFault(body: NewTest, limits: Limits, e: ApiError)
  {
    Faulty(body, limits, e) && forall other :: Place(other) < Place(e) ==> !Faulty(body, limits, other)
  }

  lemma UnknownMeans(values: seq<string>, known: set<string>)
    ensures (exists v :: v in Deduped(values) && v !in known) <==> !(Names(values) <= known)
  {
    NamesAreDeduped(values);
  }

  /** `r` is the first fault of the selection, or the axes when it has none. */
  ghost predicate SelectionDecided(groups: seq<string>, sigAlgs: seq<string>, limits: Limits, r: Result<Axes, ApiError>)
  {
    var all, algs := Names(groups), Names(sigAlgs);
    if r.Ok? then forall e :: !BadSelection(all, algs, limits, e)
    else
      && BadSelection(all, algs, limits, r.error)
      && forall e :: Place(e) < Place(r.error) ==> !BadSelection(all, algs, limits, e)
  }

  lemma AxesDecided(groups: seq<string>, sigAlgs: seq<string>, limits: Limits)
    ensures var axes, all, algs := Axes(Deduped(groups), Deduped(sigAlgs)), Names(groups), Names(sigAlgs);
            AcceptAxes(axes, limits) ==
            if BadSelection(all, algs, limits, TooManySubtasks) then Err(TooManySubtasks)
            else if BadSelection(all, algs, limits, UnknownGroups) then Err(UnknownGroups)
            else if BadSelection(all, algs, limits, UnknownSigAlgs) then Err(UnknownSigAlgs)
            else Ok(axes)
  {
    NamesAreDeduped(groups);
    NamesAreDeduped(sigAlgs);
    UnknownMeans(groups, limits.knownGroups);
    UnknownMeans(sigAlgs, limits.knownSigAlgs);
  }

  lemma FirstOfThree(groups: set<string>, sigAlgs: set<string>, limits: Limits, e: ApiError)
    requires BadSelection(groups, sigAlgs, limits, e)
    requires e == UnknownGroups ==> !BadSelection(groups, sigAlgs, limits, TooManySubtasks)
    requires e == UnknownSigAlgs ==>
               !BadSelection(groups, sigAlgs, limits, TooManySubtasks) &&
               !BadSelection(groups, sigAlgs, limits, UnknownGroups)
    ensures forall other :: Place(other) < Place(e) ==> !BadSelection(groups, sigAlgs, limits, other)
  {
  }

  lemma NoneOfThree(groups: set<string>, sigAlgs: set<string>, limits: Limits, e: ApiError)
    requires !BadSelection(groups, sigAlgs, limits, TooManySubtasks)
    requires !BadSelection(groups, sigAlgs, limits, UnknownGroups)
    requires !BadSelection(groups, sigAlgs, limits, UnknownSigAlgs)
    ensures !BadSelection(groups, sigAlgs, limits, e)
  {
  }

  lemma AxesRejected(groups: seq<string>, sigAlgs: seq<string>, limits: Limits, r: Result<Axes, ApiError>)
    requires r == AcceptAxes(Axes(Deduped(groups), Deduped(sigAlgs)), limits)
    ensures SelectionDecided(groups, sigAlgs, limits, r)
  {
    AxesDecided(groups, sigAlgs, limits);
    var all, algs := Names(groups), Names(sigAlgs);
    match r
    case Err(e) => FirstOfThree(all, algs, limits, e);
    case Ok(_) =>
      forall e
        ensures !BadSelection(all, algs, limits, e)
      {
        NoneOfThree(all, algs, limits, e);
      }
  }

  /** The selection is looked into exactly when the rest of the request is in order. */
  lemma ReachesAxes(body: NewTest, limits: Limits)
    ensures var r := Accept(body, limits);
            if forall e :: !BadRequest(body, e)
            then r == AcceptAxes(Axes(Deduped(body.groups), Deduped(body.sigAlgs)), limits)
            else
              && r.Err? && BadRequest(body, r.error)
              && forall e :: Place(e) < Place(r.error) ==> !BadRequest(body, e)
  {
    TrimmedAway(body.host);
    assert BadRequest(body, HostRequired) <==> Trim(body.host) == [];
    assert BadRequest(body, PortOutOfRange) <==> !(1 <= body.port <= 65535);
    assert BadRequest(body, NothingSelected) <==> body.groups == [] || body.sigAlgs == [];
    assert BadRequest(body, BadPath) <==> !("/" <= body.httpPath);
  }

  /** A request that is rejected has the fault it is rejected for, and none of those looked for before it. */
  lemma RejectedForFirstFault(body: NewTest, limits: Limits)
    requires Accept(body, limits).Err?
    ensures FirstFault(body, limits, Accept(body, limits).error)
  {
    ReachesAxes(body, limits);
    if forall e :: !BadRequest(body, e) {
      AxesRejected(body.groups, body.sigAlgs, limits, Accept(body, limits));
    }
  }

  /** A request is accepted exactly when nothing is wrong with it. */
  lemma AcceptedIff(body: NewTest, limits: Limits)
    ensures Accept(body, limits).Ok? <==> forall e :: !Faulty(body, limits, e)
  {
    var r := Accept(body, limits);
    if r.Err? {
      RejectedForFirstFault(body, limits);
      assert Faulty(body, limits, r.error);
    } else {
      ReachesAxes(body, limits);
      AxesRejected(body.groups, body.sigAlgs, limits, r);
      forall e
        ensures !Faulty(body, limits, e)
      {
        assert !BadRequest(body, e);
      }
    }
  }

  lemma OneFits(limits: Limits, groups: seq<string>, sigAlgs: seq<string>)
    requires groups != [] && sigAlgs != [] && |groups| * |sigAlgs| <= limits.maxSubtasks
    ensures 1 <= limits.maxSubtasks
  {
    MulGrows(|groups|, |sigAlgs|);
  }

  /** Any single cell of an accepted selection is acceptable on its own. */
  lemma OneCellAccepted(body: NewTest, limits: Limits)
    requires Accept(body, limits).Ok? && Deduped(body.groups) != [] && Deduped(body.sigAlgs) != []
    ensures var g, a := Deduped(body.groups)[0], Deduped(body.sigAlgs)[0];
            Accept(body.(groups := [g], sigAlgs := [a]), limits) == Ok(Axes([g], [a]))
  {
    var g, a := Deduped(body.groups)[0], Deduped(body.sigAlgs)[0];
    OneFits(limits, Deduped(body.groups), Deduped(body.sigAlgs));
    assert g in limits.knownGroups && a in limits.knownSigAlgs;
    DedupedKept(body.groups, g);
    DedupedKept(body.sigAlgs, a);
    OneCellFits(limits, g, a);
  }

  lemma OneCellFits(limits: Limits, g: string, a: string)
    requires 1 <= limits.maxSubtasks && g in limits.knownGroups && a in limits.knownSigAlgs
    ensures AcceptAxes(Axes([g], [a]), limits) == Ok(Axes([g], [a]))
  {
  }

  // ---------------------------------------------------------------- row-major expansion

  datatype Cell = Cell(ordinal: nat, group: string, sigAlg: string)

  lemma RowMajorIndex(g: nat, s: nat, rows: nat, width: nat)
    requires g < rows && s < width
    ensures g * width + s < rows * width
    ensures (g * width + s) / width == g && (g * width + s) % width == s
  {
    assert g * width + s < (g + 1) * width <= rows * width;
    DivModUnique(g, s, width);
  }

  lemma MulGrows(d: int, width: int)
    requires d >= 1 && width >= 0
    ensures d * width >= width
  {
    assert (d - 1) * width >= 0;
  }

  lemma DivModUnique(q: nat, r: nat, width: nat)
    requires r < width
    ensures (q * width + r) / width == q && (q * width + r) % width == r
  {
    var n := q * width + r;
    var d := n / width - q;
    assert d * width == r - n % width;
    if d >= 1 {
      MulGrows(d, width);
      assert false;
    }
    if d <= -1 {
      MulGrows(-d, width);
      assert false;
    }
  }

  lemma IndexInRows(k: nat, rows: nat, width: nat)
    requires k < rows * width
    ensures 0 < width && k / width < rows && k % width < width
    ensures k == (k / width) * width + k % width
  {
    if rows <= k / width {
      assert false;
    }
  }

  function CellAt(axes: Axes, k: nat): (c: Cell)
    requires k < |axes.groups| * |axes.sigAlgs|
  {
    IndexInRows(k, |axes.groups|, |axes.sigAlgs|);
    Cell(k, axes.groups[k / |axes.sigAlgs|], axes.sigAlgs[k % |axes.sigAlgs|])
  }

  /** A row per group, a column per signature algorithm. */
  function RowMajor(axes: Axes): (cells: seq<Cell>)
    ensures |cells| == |axes.groups| * |axes.sigAlgs|
    ensures forall k :: 0 <= k < |cells| ==> cells[k] == CellAt(axes, k)
  {
    seq(|axes.groups| * |axes.sigAlgs|, k requires 0 <= k < |axes.groups| * |axes.sigAlgs| => CellAt(axes, k))
  }

  /** The nested loops of `create_test` push exactly the row-major cells. */
  method Expand(axes: Axes) returns (cells: seq<Cell>)
    ensures cells == RowMajor(axes)
  {
    cells := [];
    var width := |axes.sigAlgs|;
    for g := 0 to |axes.groups|
      invariant |cells| == g * width <= |axes.groups| * width
      invariant forall k :: 0 <= k < |cells| ==> cells[k] == CellAt(axes, k)
    {
      assert (g + 1) * width <= |axes.groups| * width;
      for s := 0 to width
        invariant |cells| == g * width + s <= |axes.groups| * width
        invariant forall k :: 0 <= k < |cells| ==> cells[k] == CellAt(axes, k)
      {
        RowMajorIndex(g, s, |axes.groups|, width);
        cells := cells + [Cell(g * width + s, axes.groups[g], axes.sigAlgs[s])];
      }
    }
  }
}
