/** The configuration record of namespace.go (`Options`), its built-in
    default, and the functional options that override it. An option list is
    applied left to right to a copy of the configuration, each option writing
    the fields it owns. */
module NamespaceOptions {

  /** The algorithm selector handed to the external ID generator
      (`idgener.IDGENAlgorithm`). `ZeroAlgorithm` is Go's zero value of that
      type; `UuidV4` is `idgener.IDGEN_UUIDV4`; any other selector is
      `OtherAlgorithm`. The generator's own numbering is not part of this
      model, so the zero value and UUID-v4 are kept apart. */
  datatype IdGenAlgorithm = ZeroAlgorithm | UuidV4 | OtherAlgorithm(code: int)

  /** Prefix, namespace delimiter, key delimiter, random-key algorithm. */
  datatype Options = Options(
    prefix: string,
    namespaceDelimiter: string,
    keyDelimiter: string,
    randomKeyGen: IdGenAlgorithm)

  /** The package default when the library is loaded. */
  const InitialOptions := Options("", "::", "::", UuidV4)

  /** What `ReSetDefaultOptions` stores: the random-key algorithm is left at
      Go's zero value rather than set to the named UUID-v4 constant; whether
      the two coincide depends on the generator's numbering. */
  const ResetOptions := Options("", "::", "::", ZeroAlgorithm)

  /** Both delimiters are non-empty, so splitting on them cuts at occurrences. */
  predicate ValidDelimiters(o: Options) {
    |o.namespaceDelimiter| > 0 && |o.keyDelimiter| > 0
  }

  /** One functional option: `WithPrefix`, `WithNamespaceDelimiter`,
      `WithKeyDelimiter`, `WithRedisStyle`, `WithEtcdStyle`, `WithRandomKeyGen`. */
  datatype Override =
    | WithPrefix(prefix: string)
    | WithNamespaceDelimiter(delimiter: string)
    | WithKeyDelimiter(delimiter: string)
    | WithRedisStyle
    | WithEtcdStyle
    | WithRandomKeyGen(algo: IdGenAlgorithm)

  /** The four fields of `Options`, to say which ones an option writes. */
  datatype Field = PrefixField | NamespaceDelimiterField | KeyDelimiterField | RandomKeyGenField

  /** The fields an option writes. */
  function Owns(f: Override): set<Field> {
    match f
    case WithPrefix(_) => {PrefixField}
    case WithNamespaceDelimiter(_) => {NamespaceDelimiterField}
    case WithKeyDelimiter(_) => {KeyDelimiterField}
    case WithRedisStyle => {PrefixField, NamespaceDelimiterField, KeyDelimiterField}
    case WithEtcdStyle => {PrefixField, NamespaceDelimiterField, KeyDelimiterField}
    case WithRandomKeyGen(_) => {RandomKeyGenField}
  }

  /** `a` and `b` hold the same value in `field`. */
  predicate Agree(a: Options, b: Options, field: Field) {
    match field
    case PrefixField => a.prefix == b.prefix
    case NamespaceDelimiterField => a.namespaceDelimiter == b.namespaceDelimiter
    case KeyDelimiterField => a.keyDelimiter == b.keyDelimiter
    case RandomKeyGenField => a.randomKeyGen == b.randomKeyGen
  }

  /** Running one option's closure on a configuration. Every field the option
      does not own keeps its value; the presets write their fixed layouts. */
  function Apply(o: Options, f: Override): (r: Options)
    ensures forall field :: field !in Owns(f) ==> Agree(r, o, field)
    ensures f.WithPrefix? ==> r.prefix == f.prefix
    ensures f.WithNamespaceDelimiter? ==> r.namespaceDelimiter == f.delimiter
    ensures f.WithKeyDelimiter? ==> r.keyDelimiter == f.delimiter
    ensures f.WithRandomKeyGen? ==> r.randomKeyGen == f.algo
    ensures f.WithRedisStyle? ==> r.keyDelimiter == "::" && r.namespaceDelimiter == "::" && r.prefix == ""
    ensures f.WithEtcdStyle? ==> r.keyDelimiter == "/" && r.namespaceDelimiter == "/" && r.prefix == "/"
  {
    match f
    case WithPrefix(p) => o.(prefix := p)
    case WithNamespaceDelimiter(d) => o.(namespaceDelimiter := d)
    case WithKeyDelimiter(d) => o.(keyDelimiter := d)
    case WithRedisStyle => o.(keyDelimiter := "::", namespaceDelimiter := "::", prefix := "")
    case WithEtcdStyle => o.(keyDelimiter := "/", namespaceDelimiter := "/", prefix := "/")
    case WithRandomKeyGen(a) => o.(randomKeyGen := a)
  }

  /** The fields some option of the list writes. */
  function OwnedBy(fs: seq<Override>): set<Field> {
    if fs == [] then {} else Owns(fs[0]) + OwnedBy(fs[1..])
  }

  /** Applying a list of options, first to last. A field that no option in
      the list owns keeps its value. */
  function ApplyAll(o: Options, fs: seq<Override>): (r: Options)
    ensures forall field :: field !in OwnedBy(fs) ==> Agree(r, o, field)
    decreases |fs|
  {
    if fs == [] then o else ApplyAll(Apply(o, fs[0]), fs[1..])
  }

  /** What an option writes into a field it owns does not depend on the
      configuration it is applied to. */
  lemma OwnedFieldIgnoresInput(a: Options, b: Options, f: Override, field: Field)
    requires field in Owns(f)
    ensures Agree(Apply(a, f), Apply(b, f), field)
  {
  }

  /** Options apply in order: a list followed by another is the first list's
      result with the second applied on top. */
  lemma {:induction false} ApplyAllAppend(o: Options, fs: seq<Override>, gs: seq<Override>)
    ensures ApplyAll(o, fs + gs) == ApplyAll(ApplyAll(o, fs), gs)
    decreases |fs|
  {
    if fs != [] {
      assert (fs + gs)[0] == fs[0];
      assert (fs + gs)[1..] == fs[1..] + gs;
      ApplyAllAppend(Apply(o, fs[0]), fs[1..], gs);
    } else {
      assert fs + gs == gs;
    }
  }

  /** The last option that owns a field decides it: what options before it
      wrote there is overwritten, and options after it leave it alone. */
  lemma LastWriterWins(o: Options, fs: seq<Override>, k: nat, field: Field)
    requires k < |fs| && field in Owns(fs[k])
    requires forall i :: k < i < |fs| ==> field !in Owns(fs[i])
    ensures Agree(ApplyAll(o, fs), Apply(o, fs[k]), field)
  {
    var before, after := fs[..k], fs[k + 1..];
    assert fs == before + [fs[k]] + after;
    ApplyAllAppend(o, before + [fs[k]], after);
    ApplyAllAppend(o, before, [fs[k]]);
    var x := Apply(ApplyAll(o, before), fs[k]);
    assert ApplyAll(ApplyAll(o, before), [fs[k]]) == x;
    NotOwnedBy(after, field);
    OwnedFieldIgnoresInput(ApplyAll(o, before), o, fs[k], field);
  }

  /** A field that no option of the list owns is not in `OwnedBy`. */
  lemma {:induction false} NotOwnedBy(fs: seq<Override>, field: Field)
    requires forall i :: 0 <= i < |fs| ==> field !in Owns(fs[i])
    ensures field !in OwnedBy(fs)
    decreases |fs|
  {
    if fs != [] {
      assert field !in Owns(fs[0]);
      assert forall i :: 0 <= i < |fs| - 1 ==> fs[1..][i] == fs[i + 1];
      NotOwnedBy(fs[1..], field);
    }
  }

  /** Two configurations that agree on a field still agree on it after the
      same options have run on both. */
  lemma {:induction false} ApplyAllKeepsAgreement(a: Options, b: Options, fs: seq<Override>, field: Field)
    requires Agree(a, b, field)
    ensures Agree(ApplyAll(a, fs), ApplyAll(b, fs), field)
    decreases |fs|
  {
    if fs != [] {
      if field in Owns(fs[0]) {
        OwnedFieldIgnoresInput(a, b, fs[0], field);
      }
      ApplyAllKeepsAgreement(Apply(a, fs[0]), Apply(b, fs[0]), fs[1..], field);
    }
  }

  /** A field that some option of the list writes ends up the same whatever
      configuration the list started from. */
  lemma {:induction false} OwnedFieldForgetsStart(a: Options, b: Options, fs: seq<Override>, field: Field)
    requires field in OwnedBy(fs)
    ensures Agree(ApplyAll(a, fs), ApplyAll(b, fs), field)
    decreases |fs|
  {
    if field in Owns(fs[0]) {
      OwnedFieldIgnoresInput(a, b, fs[0], field);
      ApplyAllKeepsAgreement(Apply(a, fs[0]), Apply(b, fs[0]), fs[1..], field);
    } else {
      OwnedFieldForgetsStart(Apply(a, fs[0]), Apply(b, fs[0]), fs[1..], field);
    }
  }

  /** A reset default and the default at load time differ only in the
      random-key algorithm, and after the same options they still do, unless
      an option chooses the algorithm. */
  lemma ResetDiffersOnlyInAlgorithm(opts: seq<Override>)
    ensures var a, b := ApplyAll(ResetOptions, opts), ApplyAll(InitialOptions, opts);
      a.prefix == b.prefix && a.namespaceDelimiter == b.namespaceDelimiter && a.keyDelimiter == b.keyDelimiter
      && (a.randomKeyGen == b.randomKeyGen <==> RandomKeyGenField in OwnedBy(opts))
  {
    ApplyAllKeepsAgreement(ResetOptions, InitialOptions, opts, PrefixField);
    ApplyAllKeepsAgreement(ResetOptions, InitialOptions, opts, NamespaceDelimiterField);
    ApplyAllKeepsAgreement(ResetOptions, InitialOptions, opts, KeyDelimiterField);
    if RandomKeyGenField in OwnedBy(opts) {
      OwnedFieldForgetsStart(ResetOptions, InitialOptions, opts, RandomKeyGenField);
    }
  }

  /** An option that keeps the delimiters non-empty. */
  predicate KeepsDelimiters(f: Override) {
    match f
    case WithNamespaceDelimiter(d) => |d| > 0
    case WithKeyDelimiter(d) => |d| > 0
    case _ => true
  }

  /** Options with non-empty delimiters keep a valid configuration valid. */
  lemma {:induction false} ApplyAllKeepsDelimiters(o: Options, fs: seq<Override>)
    requires ValidDelimiters(o)
    requires forall i :: 0 <= i < |fs| ==> KeepsDelimiters(fs[i])
    ensures ValidDelimiters(ApplyAll(o, fs))
    decreases |fs|
  {
    if fs != [] {
      ApplyAllKeepsDelimiters(Apply(o, fs[0]), fs[1..]);
    }
  }
}
