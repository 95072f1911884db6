/** The package-level default configuration (`defaultOptions`) of
    namespace.go and the entry points that read it. Every entry point copies
    the default, runs its own options on the copy and works with the result;
    none of them has a `modifies` clause, so the stored default is never
    changed by a call's options. Only `SetDefaultOptions` and
    `ReSetDefaultOptions` change it. */
module NamespaceDefaults {
  import opened GoStrings
  import opened NamespaceOptions
  import Namespace

  class Defaults {
    /** The stored default every call starts from. */
    var defaultOptions: Options

    /** The library is loaded: the built-in default. */
    constructor ()
      ensures defaultOptions == InitialOptions
    {
      defaultOptions := InitialOptions;
    }

    /** `SetDefaultOptions`: the options run, in order, on the stored default
        itself, so later calls see their changes. */
    method SetDefaultOptions(opts: seq<Override>)
      modifies this
      ensures defaultOptions == ApplyAll(old(defaultOptions), opts)
    {
      for i := 0 to |opts|
        invariant defaultOptions == ApplyAll(old(defaultOptions), opts[..i])
      {
        assert opts[..i + 1] == opts[..i] + [opts[i]];
        ApplyAllAppend(old(defaultOptions), opts[..i], [opts[i]]);
        defaultOptions := Apply(defaultOptions, opts[i]);
      }
      assert opts[..|opts|] == opts;
    }

    /** `ReSetDefaultOptions`: both delimiters back to "::", no prefix, and
        the random-key algorithm at its zero value. */
    method ReSetDefaultOptions()
      modifies this
      ensures defaultOptions == ResetOptions
    {
      defaultOptions := ResetOptions;
    }

    /** The configuration one call works with: a copy of the stored default
        with the call's options run on it in order. */
    method Resolve(opts: seq<Override>) returns (o: Options)
      ensures o == ApplyAll(defaultOptions, opts)
    {
      o := defaultOptions;
      for i := 0 to |opts|
        invariant o == ApplyAll(defaultOptions, opts[..i])
      {
        assert opts[..i + 1] == opts[..i] + [opts[i]];
        ApplyAllAppend(defaultOptions, opts[..i], [opts[i]]);
        o := Apply(o, opts[i]);
      }
      assert opts[..|opts|] == opts;
    }

    /** `NameSpcae.ToString` with per-call options. */
    method ToString(ns: seq<string>, opts: seq<Override>) returns (s: string)
      ensures s == Namespace.ToString(ns, ApplyAll(defaultOptions, opts))
    {
      var o := Resolve(opts);
      s := Namespace.ToString(ns, o);
    }

    /** `NameSpcae.FullName` with per-call options. */
    method FullName(ns: seq<string>, key: string, opts: seq<Override>) returns (s: string)
      ensures s == Namespace.FullName(ns, key, ApplyAll(defaultOptions, opts))
    {
      var o := Resolve(opts);
      s := Namespace.FullName(ns, key, o);
    }

    /** `NameSpcae.RandomKey` with per-call options; `next` is the external
        ID generator. */
    method RandomKey(ns: seq<string>, next: IdGenAlgorithm -> Namespace.GeneratorOutcome, opts: seq<Override>)
      returns (r: (string, Namespace.Option<Namespace.GenError>))
      ensures r == Namespace.RandomKey(ns, ApplyAll(defaultOptions, opts), next)
    {
      var o := Resolve(opts);
      r := Namespace.RandomKey(ns, o, next);
    }

    /** `FromFullName` with per-call options. */
    method FromFullName(fullname: string, opts: seq<Override>) returns (r: Namespace.Decoded)
      requires ValidDelimiters(ApplyAll(defaultOptions, opts))
      ensures r == Namespace.FromFullName(fullname, ApplyAll(defaultOptions, opts))
    {
      var o := Resolve(opts);
      r := Namespace.FromFullName(fullname, o);
    }
  }
}
