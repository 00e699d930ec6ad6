/** regression/expandable_parameters_single_kernel.cpp: five fields copied through
    five ij-cached temporaries by two stages of one functor. Every extent is zero, so
    one grid point shows the whole computation: a point store maps each placeholder
    (argument or temporary) to its value there. */
module ExpandableKernel {

  import opened Wrappers
  import opened Accessors
  import opened Sequences
  import opened Composition

  /** functor_single_kernel's parameters: 0..4 inout (the outputs), 5..9 in (the inputs). */
  const KernelParams := [InOutAccessor(0), InOutAccessor(1), InOutAccessor(2), InOutAccessor(3), InOutAccessor(4),
                         InAccessor(5, ZeroExtent), InAccessor(6, ZeroExtent), InAccessor(7, ZeroExtent),
                         InAccessor(8, ZeroExtent), InAccessor(9, ZeroExtent)]

  lemma KernelDeclarations()
    ensures |KernelParams| == 10 && ParamListWellFormed(KernelParams)
    ensures forall i :: 0 <= i < 10 ==> (KernelParams[i].intent == InOut <==> i < 5)
    ensures forall i :: 0 <= i < 10 ==> KernelParams[i].extent == ZeroExtent
  {
  }

  const SingleKernel := Functor(0, KernelParams)

  type PointStore = map<Placeholder, int>

  predicate Binds(s: PointStore, args: seq<Placeholder>)
  {
    forall i :: 0 <= i < |args| ==> args[i] in s
  }

  /** functor_single_kernel::apply: parameter n gets parameter n+5, for n = 0..4 in order. */
  function Apply(s: PointStore, args: seq<Placeholder>): (r: PointStore)
    requires |args| == 10 && Binds(s, args)
    ensures r.Keys == s.Keys
    ensures NoDuplicates(args) ==> forall n :: 0 <= n < 5 ==> r[args[n]] == s[args[n + 5]]
    ensures forall p {:trigger r[p]} :: p in s && p !in args[..5] ==> r[p] == s[p]
  {
    var s1 := s[args[0] := s[args[5]]];
    var s2 := s1[args[1] := s1[args[6]]];
    var s3 := s2[args[2] := s2[args[7]]];
    var s4 := s3[args[3] := s3[args[8]]];
    s4[args[4] := s4[args[9]]]
  }

  /** The evaluation object apply writes through: the values at the current point. */
  class Evaluation {
    var store: PointStore

    constructor (s: PointStore)
      ensures store == s
    {
      store := s;
    }

    /** apply's five assignments eval(out_n) = eval(in_n), in order. */
    method ApplyKernel(args: seq<Placeholder>)
      requires |args| == 10 && Binds(store, args)
      modifies this
      ensures store == Apply(old(store), args)
    {
      store := store[args[0] := store[args[5]]];
      store := store[args[1] := store[args[6]]];
      store := store[args[2] := store[args[7]]];
      store := store[args[3] := store[args[8]]];
      store := store[args[4] := store[args[9]]];
    }
  }

  predicate KernelStages(esfs: seq<Esf>, s: PointStore)
  {
    forall j :: 0 <= j < |esfs| ==> esfs[j].functor == SingleKernel && |esfs[j].args| == 10 && Binds(s, esfs[j].args)
  }

  /** A parallel pass at one point: its stages one after the other. */
  function RunStages(s: PointStore, esfs: seq<Esf>): (r: PointStore)
    requires KernelStages(esfs, s)
    ensures r.Keys == s.Keys
  {
    if esfs == [] then s
    else
      var t := Apply(s, esfs[0].args);
      assert KernelStages(esfs[1..], t) by {
        forall j | 0 <= j < |esfs[1..]| ensures Binds(t, esfs[1..][j].args) {
          assert esfs[1..][j] == esfs[j + 1];
        }
      }
      RunStages(t, esfs[1..])
  }

  /** tmp0 .. tmp4, the temporaries declared by GT_DECLARE_TMP. */
  function Temporaries(): (r: seq<Placeholder>)
    ensures |r| == 5 && forall n :: 0 <= n < 5 ==> r[n] == Tmp(n)
  {
    seq(5, n requires 0 <= n < 5 => Tmp(n))
  }

  /** The composition handed to run: ij-cached temporaries, tmp_n := in_n, then out_n := tmp_n. */
  function CopySpec(args: seq<Placeholder>): (spec: Spec)
    ensures |args| == 10 ==> |spec| == 1 && spec[0].order == Parallel &&
                             spec[0].caches == CachesOf(Temporaries(), IJ, []) &&
                             spec[0].esfs == [Esf(SingleKernel, Temporaries() + args[5..], None),
                                              Esf(SingleKernel, args[..5] + Temporaries(), None)]
  {
    if |args| == 10 then
      var tmps := Temporaries();
      [ExecuteParallel().IjCached(tmps).Stage(SingleKernel, tmps + args[5..]).Stage(SingleKernel, args[..5] + tmps)]
    else []
  }

  /** The arguments of the first stage: tmp0..tmp4, in0..in4. */
  function CopyArgs(): (r: seq<Placeholder>)
    ensures |r| == 10 && forall k :: 0 <= k < 10 ==> r[k] == if k < 5 then Tmp(k) else Arg(k)
  {
    Temporaries() + ArgsUpTo(10)[5..]
  }

  /** The arguments of the second stage: out0..out4, tmp0..tmp4. */
  function WriteBackArgs(): (r: seq<Placeholder>)
    ensures |r| == 10 && forall k :: 0 <= k < 10 ==> r[k] == if k < 5 then Arg(k) else Tmp(k - 5)
  {
    ArgsUpTo(10)[..5] + Temporaries()
  }

  const CopyPass := Mss(Parallel, [Esf(SingleKernel, CopyArgs(), None), Esf(SingleKernel, WriteBackArgs(), None)],
                        CachesOf(Temporaries(), IJ, []))

  /** What run builds from the composition: one parallel pass with both stages. */
  lemma CopySpecShape()
    ensures CopySpec(ArgsUpTo(10)) == [CopyPass]
  {
  }

  /** The point store the pass starts from: the fields, and the temporaries' scratch value. */
  function InitialStore(c: Computation<int>, tmpInit: int): (s: PointStore)
    ensures forall p :: p in s <==> p in c.fields || p in Temporaries()
    ensures forall p :: p in c.fields ==> s[p] == c.fields[p]
  {
    map p | p in c.fields.Keys + (set t | t in Temporaries()) :: if p in c.fields then c.fields[p] else tmpInit
  }

  predicate BindsExample(s: PointStore)
  {
    (forall n: nat :: n < 10 ==> Arg(n) in s) && (forall n: nat :: n < 5 ==> Tmp(n) in s)
  }

  /** Stage one: tmp_n := in_n, nothing else changes. */
  lemma CopyStageEffect(s: PointStore)
    requires BindsExample(s)
    ensures Binds(s, CopyArgs())
    ensures forall n: nat :: n < 5 ==> Apply(s, CopyArgs())[Tmp(n)] == s[Arg(n + 5)]
    ensures forall p {:trigger Apply(s, CopyArgs())[p]} :: p in s && !p.Tmp? ==> Apply(s, CopyArgs())[p] == s[p]
  {
    var e := CopyArgs();
    assert NoDuplicates(e);
    forall n: nat | n < 5 ensures Apply(s, e)[Tmp(n)] == s[Arg(n + 5)] {
      assert e[n] == Tmp(n) && e[n + 5] == Arg(n + 5);
    }
  }

  /** Stage two: out_n := tmp_n, nothing else changes. */
  lemma WriteBackStageEffect(s: PointStore)
    requires BindsExample(s)
    ensures Binds(s, WriteBackArgs())
    ensures forall n: nat :: n < 5 ==> Apply(s, WriteBackArgs())[Arg(n)] == s[Tmp(n)]
    ensures forall p {:trigger Apply(s, WriteBackArgs())[p]} :: p in s && !(p.Arg? && p.index < 5) ==> Apply(s, WriteBackArgs())[p] == s[p]
  {
    var e := WriteBackArgs();
    assert NoDuplicates(e);
    forall n: nat | n < 5 ensures Apply(s, e)[Arg(n)] == s[Tmp(n)] {
      assert e[n] == Arg(n) && e[n + 5] == Tmp(n);
    }
  }

  /** Two stages run one after the other. */
  lemma RunTwoStages(s: PointStore, a: Esf, b: Esf)
    requires a.functor == SingleKernel && b.functor == SingleKernel
    requires |a.args| == 10 && |b.args| == 10 && Binds(s, a.args) && Binds(s, b.args)
    ensures KernelStages([a, b], s)
    ensures RunStages(s, [a, b]) == Apply(Apply(s, a.args), b.args)
  {
    assert [a, b][1..] == [b];
    assert [b][1..] == [];
    var t := Apply(s, a.args);
    assert RunStages(s, [a, b]) == RunStages(t, [b]);
    assert RunStages(t, [b]) == RunStages(Apply(t, b.args), []);
  }

  /** The pass at one point: out_n ends up holding in_n, and the inputs are unchanged. */
  lemma CopyPassEffect(s: PointStore)
    requires BindsExample(s)
    ensures KernelStages(CopyPass.esfs, s)
    ensures forall n: nat :: n < 5 ==> RunStages(s, CopyPass.esfs)[Arg(n)] == s[Arg(n + 5)]
    ensures forall n: nat :: 5 <= n < 10 ==> RunStages(s, CopyPass.esfs)[Arg(n)] == s[Arg(n)]
  {
    CopyStageEffect(s);
    WriteBackStageEffect(s);
    var t := Apply(s, CopyArgs());
    assert BindsExample(t);
    WriteBackStageEffect(t);
    RunTwoStages(s, CopyPass.esfs[0], CopyPass.esfs[1]);
  }

  /** What run hands over: the pass, and field i bound to arg<i>. */
  lemma RunCopySpec(fields: seq<int>)
    requires |fields| == 10
    ensures Run(CopySpec, fields).spec == [CopyPass]
    ensures forall n: nat :: n < 10 ==> Arg(n) in Run(CopySpec, fields).fields && Run(CopySpec, fields).fields[Arg(n)] == fields[n]
  {
    CopySpecShape();
  }

  lemma InitialStoreBinds(c: Computation<int>, tmpInit: int)
    requires forall n: nat :: n < 10 ==> Arg(n) in c.fields
    ensures BindsExample(InitialStore(c, tmpInit))
    ensures forall n: nat :: n < 10 ==> InitialStore(c, tmpInit)[Arg(n)] == c.fields[Arg(n)]
  {
    var s := InitialStore(c, tmpInit);
    forall n: nat | n < 5 ensures Tmp(n) in s {
      assert Temporaries()[n] == Tmp(n);
    }
  }

  /** After the pass over s, out_n holds field n + 5 and in_n still holds field n. */
  predicate OutputsCopied(s: PointStore, fields: seq<int>)
  {
    |fields| == 10 && BindsExample(s) && KernelStages(CopyPass.esfs, s) &&
    (forall n: nat :: n < 5 ==> RunStages(s, CopyPass.esfs)[Arg(n)] == fields[n + 5]) &&
    (forall n: nat :: 5 <= n < 10 ==> RunStages(s, CopyPass.esfs)[Arg(n)] == fields[n])
  }

  /** The pass over a store that holds field n at arg<n>. */
  lemma CopyPassOnFields(s: PointStore, fields: seq<int>)
    requires |fields| == 10 && BindsExample(s)
    requires forall n: nat :: n < 10 ==> s[Arg(n)] == fields[n]
    ensures OutputsCopied(s, fields)
  {
    CopyPassEffect(s);
  }

  /** The test: after the run every out[i] holds in[i], and the inputs are unchanged. */
  lemma CopyThroughTemporaries(fields: seq<int>, tmpInit: int)
    requires |fields| == 10
    ensures Run(CopySpec, fields).spec == [CopyPass]
    ensures OutputsCopied(InitialStore(Run(CopySpec, fields), tmpInit), fields)
  {
    var c := Run(CopySpec, fields);
    RunCopySpec(fields);
    InitialStoreBinds(c, tmpInit);
    CopyPassOnFields(InitialStore(c, tmpInit), fields);
  }

  /** The regression's fields: out starts at 1..5, in at -1..-5; afterwards out[i] == in[i],
      so none of the initial outputs survives. */
  lemma RegressionFields(tmpInit: int)
    ensures var fields := [1, 2, 3, 4, 5, -1, -2, -3, -4, -5];
            var c := Run(CopySpec, fields);
            var s := InitialStore(c, tmpInit);
            KernelStages(CopyPass.esfs, s) &&
            forall n: nat :: n < 5 ==> RunStages(s, CopyPass.esfs)[Arg(n)] == -(n + 1) != s[Arg(n)]
  {
    var fields := [1, 2, 3, 4, 5, -1, -2, -3, -4, -5];
    assert forall n: nat :: n < 10 ==> fields[n] == if n < 5 then n + 1 else 4 - n;
    CopyThroughTemporaries(fields, tmpInit);
    RunCopySpec(fields);
    InitialStoreBinds(Run(CopySpec, fields), tmpInit);
  }

  /** No stage of the pass binds an input to an inout parameter. */
  lemma InputsNotWritten(spec: Spec, n: nat)
    requires spec == [CopyPass] && 5 <= n < 10
    ensures !Written(spec, Arg(n))
  {
    forall k | 0 <= k < 10 && KernelParams[k].intent == InOut
      ensures CopyArgs()[k] != Arg(n) && WriteBackArgs()[k] != Arg(n)
    {
    }
  }

  /** get_arg_intent over the pass: outputs and temporaries are inout, inputs in. */
  lemma CopyPassIntents(spec: Spec)
    requires spec == [CopyPass]
    ensures forall n: nat :: n < 5 ==> GetArgIntent(spec, Arg(n)) == InOut && GetArgIntent(spec, Tmp(n)) == InOut
    ensures forall n: nat :: 5 <= n < 10 ==> GetArgIntent(spec, Arg(n)) == In
  {
    forall n: nat | n < 5
      ensures Written(spec, Arg(n)) && Written(spec, Tmp(n))
    {
      assert WriteBackArgs()[n] == Arg(n) && KernelParams[n].intent == InOut;
      assert WritesAt(spec[0].esfs[1], Arg(n));
      assert CopyArgs()[n] == Tmp(n);
      assert WritesAt(spec[0].esfs[0], Tmp(n));
    }
    forall n: nat | 5 <= n < 10 ensures !Written(spec, Arg(n)) {
      InputsNotWritten(spec, n);
    }
  }

  lemma CopyIntents()
    ensures var spec := CopySpec(ArgsUpTo(10));
            (forall n: nat :: n < 5 ==> GetArgIntent(spec, Arg(n)) == InOut && GetArgIntent(spec, Tmp(n)) == InOut) &&
            (forall n: nat :: 5 <= n < 10 ==> GetArgIntent(spec, Arg(n)) == In)
  {
    CopySpecShape();
    CopyPassIntents(CopySpec(ArgsUpTo(10)));
  }
}
