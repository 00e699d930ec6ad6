/** The composition front end of include/gridtools/stencil_composition/frontend/run.hpp.
    In the original every builder is a constexpr function whose result TYPE is
    the new specification; here the types become values and the builders pure
    functions over them. */
module Composition {

  import opened Wrappers
  import opened Accessors
  import opened Sequences

  datatype ExecutionOrder = Parallel | Forward | Backward

  /** arg<I> (the I-th field handed to run) or a temporary declared inside the composition. */
  datatype Placeholder = Arg(index: nat) | Tmp(id: nat)

  datatype CacheKind = IJ | K

  datatype IoPolicy = Fill | Flush

  /** core::cache_info<Arg, list<kind>, list<policies...>> */
  datatype CacheInfo = CacheInfo(arg: Placeholder, kind: CacheKind, policies: seq<IoPolicy>)

  /** A stencil functor: an identity and its param_list. */
  datatype Functor = Functor(id: nat, params: seq<Accessor>)

  /** core::esf_descriptor<F, list<Args...>, Extent>; extent None stands for `void`. */
  datatype Esf = Esf(functor: Functor, args: seq<Placeholder>, extent: Option<Extent>)

  /** core::mss_descriptor<ExecutionType, Esfs, Caches> wrapped in a one-pass spec. */
  datatype Mss = Mss(order: ExecutionOrder, esfs: seq<Esf>, caches: seq<CacheInfo>)
  {
    /** spec::stage: one more stage at the end, extent left to inference. */
    function Stage(f: Functor, args: seq<Placeholder>): (r: Mss)
      ensures r.order == order && r.caches == caches
      ensures |r.esfs| == |esfs| + 1 && r.esfs[..|esfs|] == esfs
      ensures r.esfs[|esfs|] == Esf(f, args, None)
    {
      Mss(order, esfs + [Esf(f, args, None)], caches)
    }

    /** spec::stage_with_extent: as Stage, with the extent pinned. */
    function StageWithExtent(e: Extent, f: Functor, args: seq<Placeholder>): (r: Mss)
      ensures r.order == order && r.caches == caches
      ensures |r.esfs| == |esfs| + 1 && r.esfs[..|esfs|] == esfs
      ensures r.esfs[|esfs|] == Esf(f, args, Some(e))
    {
      Mss(order, esfs + [Esf(f, args, Some(e))], caches)
    }
  }

  /** A multi-pass specification: spec<Msses...>. */
  type Spec = seq<Mss>

  /** empty_spec<ExecutionType, Caches...>: a pass with no stage yet. Only this
      type has ij_cached and k_cached, so caches come before the first stage. */
  datatype EmptySpec = EmptySpec(order: ExecutionOrder, caches: seq<CacheInfo>)
  {
    /** empty_spec derives from spec<mss_descriptor<ExecutionType, list<>, list<Caches...>>>. */
    function AsMss(): (m: Mss)
      ensures m.order == order && m.esfs == [] && m.caches == caches
    {
      Mss(order, [], caches)
    }

    function Stage(f: Functor, args: seq<Placeholder>): (r: Mss)
      ensures r == Mss(order, [Esf(f, args, None)], caches)
    {
      AsMss().Stage(f, args)
    }

    function StageWithExtent(e: Extent, f: Functor, args: seq<Placeholder>): (r: Mss)
      ensures r == Mss(order, [Esf(f, args, Some(e))], caches)
    {
      AsMss().StageWithExtent(e, f, args)
    }

    /** ij_cached(Args...): one ij cache per argument, in argument order. */
    function IjCached(args: seq<Placeholder>): (r: EmptySpec)
      ensures r.order == order && |r.caches| == |caches| + |args| && r.caches[..|caches|] == caches
      ensures forall i :: 0 <= i < |args| ==> r.caches[|caches| + i] == CacheInfo(args[i], IJ, [])
    {
      EmptySpec(order, caches + CachesOf(args, IJ, []))
    }

    /** The five k_cached overloads: no policy, flush, fill, fill+flush, flush+fill. */
    function KCached(tags: seq<IoPolicy>, args: seq<Placeholder>): (r: EmptySpec)
      requires KCacheOverload(tags)
      ensures r.order == order && |r.caches| == |caches| + |args| && r.caches[..|caches|] == caches
      ensures forall i :: 0 <= i < |args| ==> r.caches[|caches| + i] == CacheInfo(args[i], K, PolicyList(tags))
    {
      EmptySpec(order, caches + CachesOf(args, K, PolicyList(tags)))
    }
  }

  function CachesOf(args: seq<Placeholder>, kind: CacheKind, policies: seq<IoPolicy>): (r: seq<CacheInfo>)
    ensures |r| == |args|
    ensures forall i :: 0 <= i < |args| ==> r[i] == CacheInfo(args[i], kind, policies)
  {
    seq(|args|, i requires 0 <= i < |args| => CacheInfo(args[i], kind, policies))
  }

  /** The leading policy tags that some k_cached overload accepts. */
  predicate KCacheOverload(tags: seq<IoPolicy>)
  {
    |tags| <= 2 && (|tags| == 2 ==> tags[0] != tags[1])
  }

  /** The policy list the k_cached overload stores: fill before flush, whatever the call order. */
  function PolicyList(tags: seq<IoPolicy>): (r: seq<IoPolicy>)
    requires KCacheOverload(tags)
    ensures Fill in r <==> Fill in tags
    ensures Flush in r <==> Flush in tags
    ensures NoDuplicates(r)
    ensures |r| == 2 ==> r == [Fill, Flush]
  {
    if |tags| == 2 then [Fill, Flush] else tags
  }

  function ExecuteParallel(): (r: EmptySpec)
    ensures r.AsMss() == Mss(Parallel, [], [])
  {
    EmptySpec(Parallel, [])
  }

  function ExecuteForward(): (r: EmptySpec)
    ensures r.AsMss() == Mss(Forward, [], [])
  {
    EmptySpec(Forward, [])
  }

  function ExecuteBackward(): (r: EmptySpec)
    ensures r.AsMss() == Mss(Backward, [], [])
  {
    EmptySpec(Backward, [])
  }

  /** multi_pass(spec<Msses>...): the passes, run in the given order. */
  function MultiPass(passes: seq<Mss>): (r: Spec)
    ensures |r| == |passes| && forall i :: 0 <= i < |passes| ==> r[i] == passes[i]
  {
    passes
  }

  /** arg<0>, ..., arg<n-1>: what run hands to the composition function. */
  function ArgsUpTo(n: nat): (r: seq<Placeholder>)
    ensures |r| == n && forall i :: 0 <= i < n ==> r[i] == Arg(i)
    ensures NoDuplicates(r)
  {
    seq(n, i requires 0 <= i < n => Arg(i))
  }

  /** What run hands to the backend entry point: the spec and the map from arg<i> to field i. */
  datatype Computation<F> = Computation(spec: Spec, fields: map<Placeholder, F>)

  function Run<F>(comp: seq<Placeholder> -> Spec, fields: seq<F>): (r: Computation<F>)
    ensures r.spec == comp(ArgsUpTo(|fields|))
    ensures forall p :: p in r.fields <==> p.Arg? && p.index < |fields|
    ensures forall i :: 0 <= i < |fields| ==> r.fields[Arg(i)] == fields[i]
  {
    var args := ArgsUpTo(|fields|);
    Computation(comp(args), map p | p in args :: fields[p.index])
  }

  /** run_single_stage(F, backend, grid, fields...): one parallel pass holding one stage of F over all fields. */
  function RunSingleStage<F>(f: Functor, fields: seq<F>): (r: Computation<F>)
    ensures r.spec == [Mss(Parallel, [Esf(f, ArgsUpTo(|fields|), None)], [])]
    ensures forall p :: p in r.fields <==> p.Arg? && p.index < |fields|
    ensures forall i :: 0 <= i < |fields| ==> r.fields[Arg(i)] == fields[i]
  {
    Run(args => [ExecuteParallel().Stage(f, args)], fields)
  }

  /** The placeholders a stage writes: those bound to an inout parameter. */
  function EsfRwArgs(e: Esf): (r: seq<Placeholder>)
    ensures forall p :: p in r <==> WritesAt(e, p)
  {
    RwArgsFrom(e.args, e.functor.params)
  }

  ghost predicate WritesAt(e: Esf, p: Placeholder)
  {
    exists i :: 0 <= i < |e.args| && i < |e.functor.params| && e.args[i] == p && e.functor.params[i].intent == InOut
  }

  function RwArgsFrom(args: seq<Placeholder>, params: seq<Accessor>): (r: seq<Placeholder>)
    ensures forall p :: p in r <==> exists i :: 0 <= i < |args| && i < |params| && args[i] == p && params[i].intent == InOut
  {
    if args == [] || params == [] then []
    else
      var rest := RwArgsFrom(args[1..], params[1..]);
      assert forall i :: 1 <= i < |args| && i < |params| ==> args[i] == args[1..][i - 1] && params[i] == params[1..][i - 1];
      (if params[0].intent == InOut then [args[0]] else []) + rest
  }

  /** compute_readwrite_args over one pass's stage sequence. */
  function MssRwArgs(m: Mss): seq<Placeholder>
  {
    Flatten(seq(|m.esfs|, j requires 0 <= j < |m.esfs| => EsfRwArgs(m.esfs[j])))
  }

  lemma MssRwArgsMembers(m: Mss, p: Placeholder)
    ensures p in MssRwArgs(m) <==> exists j :: 0 <= j < |m.esfs| && WritesAt(m.esfs[j], p)
  {
    var ss := seq(|m.esfs|, j requires 0 <= j < |m.esfs| => EsfRwArgs(m.esfs[j]));
    if p in MssRwArgs(m) {
      var j :| 0 <= j < |ss| && p in ss[j];
      assert WritesAt(m.esfs[j], p);
    }
    if exists j :: 0 <= j < |m.esfs| && WritesAt(m.esfs[j], p) {
      var j :| 0 <= j < |m.esfs| && WritesAt(m.esfs[j], p);
      assert p in ss[j];
    }
  }

  /** Some stage of some pass writes p. */
  ghost predicate Written(spec: Spec, p: Placeholder)
  {
    exists i, j :: 0 <= i < |spec| && 0 <= j < |spec[i].esfs| && WritesAt(spec[i].esfs[j], p)
  }

  function PerPassRwArgs(spec: Spec): seq<seq<Placeholder>>
  {
    seq(|spec|, i requires 0 <= i < |spec| => MssRwArgs(spec[i]))
  }

  lemma PerPassRwArgsMembers(spec: Spec, p: Placeholder)
    ensures p in Flatten(PerPassRwArgs(spec)) <==> Written(spec, p)
  {
    var pp := PerPassRwArgs(spec);
    if p in Flatten(pp) {
      var i :| 0 <= i < |pp| && p in pp[i];
      MssRwArgsMembers(spec[i], p);
      var j :| 0 <= j < |spec[i].esfs| && WritesAt(spec[i].esfs[j], p);
    }
    if Written(spec, p) {
      var i, j :| 0 <= i < |spec| && 0 <= j < |spec[i].esfs| && WritesAt(spec[i].esfs[j], p);
      MssRwArgsMembers(spec[i], p);
      assert p in pp[i];
    }
  }

  /** all_rw_args: dedup(flatten(transform<rw_args_from_mss, Msses>)). */
  function AllRwArgs(spec: Spec): (r: seq<Placeholder>)
    ensures NoDuplicates(r)
    ensures forall p :: p in r <==> Written(spec, p)
  {
    var r := Dedup(Flatten(PerPassRwArgs(spec)));
    forall p ensures p in r <==> Written(spec, p) {
      PerPassRwArgsMembers(spec, p);
    }
    r
  }

  /** get_arg_intent: inout iff some stage of the spec writes the placeholder. */
  function GetArgIntent(spec: Spec, p: Placeholder): (r: Intent)
    ensures r == InOut <==> Written(spec, p)
    ensures r == In <==> !Written(spec, p)
  {
    if IsThereInSequence(AllRwArgs(spec), p) then InOut else In
  }

  /** Appending a stage never turns an inout placeholder back into an in one. */
  lemma StageKeepsInOut(spec: Spec, m: Mss, f: Functor, args: seq<Placeholder>, p: Placeholder)
    requires GetArgIntent(spec + [m], p) == InOut
    ensures GetArgIntent(spec + [m.Stage(f, args)], p) == InOut
  {
    var i, j :| 0 <= i < |spec + [m]| && 0 <= j < |(spec + [m])[i].esfs| && WritesAt((spec + [m])[i].esfs[j], p);
    var s2 := spec + [m.Stage(f, args)];
    assert s2[i].esfs[j] == (spec + [m])[i].esfs[j];
    assert Written(s2, p);
  }

  /** The intent of a multi-pass spec is decided pass by pass: inout iff inout in one of the parts. */
  lemma MultiPassIntent(a: Spec, b: Spec, p: Placeholder)
    ensures GetArgIntent(MultiPass(a + b), p) == InOut <==>
            GetArgIntent(a, p) == InOut || GetArgIntent(b, p) == InOut
  {
    var s := a + b;
    if Written(s, p) {
      var i, j :| 0 <= i < |s| && 0 <= j < |s[i].esfs| && WritesAt(s[i].esfs[j], p);
      if i < |a| { assert a[i] == s[i]; assert Written(a, p); }
      else { assert b[i - |a|] == s[i]; assert Written(b, p); }
    }
    if Written(a, p) {
      var i, j :| 0 <= i < |a| && 0 <= j < |a[i].esfs| && WritesAt(a[i].esfs[j], p);
      assert s[i] == a[i];
      assert Written(s, p);
    }
    if Written(b, p) {
      var i, j :| 0 <= i < |b| && 0 <= j < |b[i].esfs| && WritesAt(b[i].esfs[j], p);
      assert s[|a| + i] == b[i];
      assert Written(s, p);
    }
  }

  /** stage_with_extent differs from stage only in the pinned extent of the new stage. */
  lemma StageWithExtentIsStage(m: Mss, e: Extent, f: Functor, args: seq<Placeholder>)
    ensures m.StageWithExtent(e, f, args).esfs[..|m.esfs|] == m.Stage(f, args).esfs[..|m.esfs|]
    ensures var s := m.StageWithExtent(e, f, args).esfs[|m.esfs|]; var t := m.Stage(f, args).esfs[|m.esfs|];
            s.functor == t.functor && s.args == t.args && s.extent == Some(e) && t.extent == None
  {
  }

  /** The two orders in which k_cached accepts fill and flush give the same caches. */
  lemma KCachedFillFlushCommute(s: EmptySpec, args: seq<Placeholder>)
    ensures s.KCached([Fill, Flush], args) == s.KCached([Flush, Fill], args)
    ensures forall c :: c in s.KCached([Fill, Flush], args).caches[|s.caches|..] ==> c.policies == [Fill, Flush]
  {
  }
}
