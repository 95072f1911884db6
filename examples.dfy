/** The concrete cases of namespace_test.go, stated against the model. */
module NamespaceExamples {
  import opened GoStrings
  import opened NamespaceOptions
  import opened Namespace
  import opened NamespaceDefaults

  const Abc: seq<string> := ["a", "b", "c"]

  lemma JoinAbc()
    ensures Join(Abc, "::") == "a::b::c"
    ensures Join(Abc, "??") == "a??b??c"
    ensures Join(Abc, "/") == "a/b/c"
  {
    assert Abc[1..] == ["b", "c"] && Abc[1..][1..] == ["c"];
  }

  /** namespace_test.go:10-21: the default and a custom namespace delimiter. */
  lemma ToStringExamples()
    ensures ToString(Abc, InitialOptions) == "a::b::c"
    ensures ToString(Abc, ApplyAll(InitialOptions, [WithNamespaceDelimiter("??")])) == "a??b??c"
  {
    JoinAbc();
    assert ApplyAll(InitialOptions, [WithNamespaceDelimiter("??")]) == Options("", "??", "::", UuidV4);
  }

  /** namespace_test.go:106-111: the prefix goes directly in front. */
  lemma ToStringWithPrefixExample()
    ensures ToString(Abc, ApplyAll(InitialOptions, [WithPrefix("//")])) == "//a::b::c"
  {
    JoinAbc();
    assert ApplyAll(InitialOptions, [WithPrefix("//")]) == Options("//", "::", "::", UuidV4);
  }

  /** namespace_test.go:23-34: the default and a custom key delimiter. */
  lemma FullNameExamples()
    ensures FullName(Abc, "q", InitialOptions) == "a::b::c::q"
    ensures FullName(Abc, "q", ApplyAll(InitialOptions, [WithKeyDelimiter("-")])) == "a::b::c-q"
  {
    JoinAbc();
    assert ApplyAll(InitialOptions, [WithKeyDelimiter("-")]) == Options("", "::", "-", UuidV4);
  }

  /** namespace_test.go:113-118: a key delimiter and a prefix together. */
  lemma FullNameWithPrefixExample()
    ensures FullName(Abc, "q", ApplyAll(InitialOptions, [WithKeyDelimiter("-"), WithPrefix("//")])) == "//a::b::c-q"
  {
    JoinAbc();
    ApplyAllAppend(InitialOptions, [WithKeyDelimiter("-")], [WithPrefix("//")]);
    assert [WithKeyDelimiter("-"), WithPrefix("//")] == [WithKeyDelimiter("-")] + [WithPrefix("//")];
    assert ApplyAll(InitialOptions, [WithKeyDelimiter("-"), WithPrefix("//")]) == Options("//", "::", "-", UuidV4);
  }

  /** namespace_test.go:120-125: the redis preset. */
  lemma FullNameRedisStyleExample()
    ensures FullName(Abc, "q", ApplyAll(InitialOptions, [WithRedisStyle])) == "a::b::c::q"
  {
    JoinAbc();
    assert ApplyAll(InitialOptions, [WithRedisStyle]) == InitialOptions;
  }

  /** namespace_test.go:136-141: the etcd preset. */
  lemma FullNameEtcdStyleExample()
    ensures FullName(Abc, "q", ApplyAll(InitialOptions, [WithEtcdStyle])) == "/a/b/c/q"
  {
    JoinAbc();
    assert ApplyAll(InitialOptions, [WithEtcdStyle]) == Options("/", "/", "/", UuidV4);
  }

  /** namespace_test.go:36-44: the default layout decodes "a::b::c". */
  lemma DecodeSameDelimiterExample()
    ensures FromFullName("a::b::c", InitialOptions) == Decoded(["a", "b"], "c", None)
  {
    assert FullName(["a", "b"], "c", InitialOptions) == "a::b::c";
    RoundTripWithoutDelimiterChars(["a", "b"], "c", InitialOptions);
  }

  /** namespace_test.go:45-52: a bare key has no namespace. */
  lemma DecodeNoNamespaceExample()
    ensures FromFullName("c", InitialOptions) == Decoded([], "c", Some(ErrKeyNotHaveNamespace))
  {
    AvoidsIsClean("c", "::");
    SplitFree("c", "::");
  }

  /** namespace_test.go:54-62: ":" between segments, "::" before the key. */
  lemma DecodeDelimiterOptionExample()
    ensures FromFullName("a:b::c", ApplyAll(InitialOptions, [WithNamespaceDelimiter(":"), WithKeyDelimiter("::")]))
      == Decoded(["a", "b"], "c", None)
  {
    var o := Options("", ":", "::", UuidV4);
    ApplyAllAppend(InitialOptions, [WithNamespaceDelimiter(":")], [WithKeyDelimiter("::")]);
    assert [WithNamespaceDelimiter(":"), WithKeyDelimiter("::")] == [WithNamespaceDelimiter(":")] + [WithKeyDelimiter("::")];
    assert ApplyAll(InitialOptions, [WithNamespaceDelimiter(":"), WithKeyDelimiter("::")]) == o;
    assert Join(["a", "b"], ":") == "a:b";
    assert FullName(["a", "b"], "c", o) == "a:b::c";
    NotAt("a:b::", "::", 0, 0);
    NotAt("a:b::", "::", 1, 1);
    NotAt("a:b::", "::", 2, 0);
    AvoidsIsClean("c", "::");
    assert SplitsBack(["a:b", "c"], "::");
    SplitPieces(["a", "b"], ":");
    SplitJoin(["a", "b"], ":");
    FullNameRoundTrip(["a", "b"], "c", o);
  }

  /** namespace_test.go:64-74: no key delimiter at all. */
  lemma DecodeNoKeyDelimiterExample()
    ensures FromFullName("abc", ApplyAll(InitialOptions, [WithNamespaceDelimiter(":"), WithKeyDelimiter("::")]))
      == Decoded([], "abc", Some(ErrKeyNotHaveNamespace))
  {
    ApplyAllAppend(InitialOptions, [WithNamespaceDelimiter(":")], [WithKeyDelimiter("::")]);
    assert [WithNamespaceDelimiter(":"), WithKeyDelimiter("::")] == [WithNamespaceDelimiter(":")] + [WithKeyDelimiter("::")];
    AvoidsIsClean("abc", "::");
    SplitFree("abc", "::");
  }

  /** namespace_test.go:76-84: with ":" as key delimiter and "::" between
      segments, "a::b:c:d" splits into five parts and is rejected. */
  lemma DecodeTooManyPartsExample()
    ensures FromFullName("a::b:c:d", ApplyAll(InitialOptions, [WithKeyDelimiter(":")]))
      == Decoded([], "", Some(ErrNamespaceFormatNotMatch))
  {
    var o := Options("", "::", ":", UuidV4);
    assert ApplyAll(InitialOptions, [WithKeyDelimiter(":")]) == o;
    var parts := ["a", "", "b", "c", "d"];
    assert Join(parts, ":") == "a::b:c:d";
    SplitPieces(parts, ":");
    FromRestParts("a::b:c:d", o);
  }

  /** namespace_test.go:86-94: the prefix "//" is missing. */
  lemma DecodeMissingPrefixExample()
    ensures FromFullName("a::b::c:d", ApplyAll(InitialOptions, [WithKeyDelimiter(":"), WithPrefix("//")]))
      == Decoded([], "", Some(ErrNamespaceFormatNotMatch))
  {
    ApplyAllAppend(InitialOptions, [WithKeyDelimiter(":")], [WithPrefix("//")]);
    assert [WithKeyDelimiter(":"), WithPrefix("//")] == [WithKeyDelimiter(":")] + [WithPrefix("//")];
    assert "a::b::c:d"[..2][0] == 'a';
  }

  /** namespace_test.go:96-104: the prefix is there, but what follows it
      splits into six parts on ":". */
  lemma DecodePrefixThenTooManyPartsExample()
    ensures FromFullName("//a::b::c:d", ApplyAll(InitialOptions, [WithKeyDelimiter(":"), WithPrefix("//")]))
      == Decoded([], "", Some(ErrNamespaceFormatNotMatch))
  {
    var o := Options("//", "::", ":", UuidV4);
    ApplyAllAppend(InitialOptions, [WithKeyDelimiter(":")], [WithPrefix("//")]);
    assert [WithKeyDelimiter(":"), WithPrefix("//")] == [WithKeyDelimiter(":")] + [WithPrefix("//")];
    assert ApplyAll(InitialOptions, [WithKeyDelimiter(":"), WithPrefix("//")]) == o;
    assert "//a::b::c:d" == o.prefix + "a::b::c:d";
    FromFullNameStripsPrefix(o);
    SixParts();
    FromRestParts("a::b::c:d", o);
  }

  /** "a::b::c:d" split on ":". */
  lemma SixParts()
    ensures Split("a::b::c:d", ":") == ["a", "", "b", "", "c", "d"]
  {
    var parts := ["a", "", "b", "", "c", "d"];
    JoinCons("c", ["d"], ":");
    JoinCons("", ["c", "d"], ":");
    JoinCons("b", ["", "c", "d"], ":");
    JoinCons("", ["b", "", "c", "d"], ":");
    JoinCons("a", ["", "b", "", "c", "d"], ":");
    assert parts == ["a"] + ["", "b", "", "c", "d"];
    assert Join(parts, ":") == "a::b::c:d";
    SplitPieces(parts, ":");
  }

  /** namespace_test.go:126-134: the redis preset decodes "a::b::c::d". */
  lemma DecodeRedisStyleExample()
    ensures FromFullName("a::b::c::d", ApplyAll(InitialOptions, [WithRedisStyle])) == Decoded(Abc, "d", None)
  {
    assert ApplyAll(InitialOptions, [WithRedisStyle]) == InitialOptions;
    JoinAbc();
    assert FullName(Abc, "d", InitialOptions) == "a::b::c::d";
    RoundTripWithoutDelimiterChars(Abc, "d", InitialOptions);
  }

  /** namespace_test.go:142-150: the etcd preset decodes "/a/b/c/d". */
  lemma DecodeEtcdStyleExample()
    ensures FromFullName("/a/b/c/d", ApplyAll(InitialOptions, [WithEtcdStyle])) == Decoded(Abc, "d", None)
  {
    var o := Options("/", "/", "/", UuidV4);
    assert ApplyAll(InitialOptions, [WithEtcdStyle]) == o;
    JoinAbc();
    assert FullName(Abc, "d", o) == "/a/b/c/d";
    RoundTripWithoutDelimiterChars(Abc, "d", o);
  }

  /** A segment ending in part of a two-character delimiter creates a match
      across the joint: ["a:", "b"] with key "k" encodes to "a:::b::k" ... */
  lemma StraddlingDelimiterEncodes()
    ensures FullName(["a:", "b"], "k", InitialOptions) == "a:::b::k"
  {
    JoinCons("a:", ["b"], "::");
    assert ["a:", "b"] == ["a:"] + ["b"];
  }

  /** ... and "a:::b::k" decodes to ["a", ":b"] with key "k". */
  lemma StraddlingDelimiterDecodes()
    ensures FromFullName("a:::b::k", InitialOptions) == Decoded(["a", ":b"], "k", None)
  {
    StraddleDecodes();
  }

  /** `StraddlingDelimiterDecodes` after the (empty) prefix. */
  lemma StraddleDecodes()
    ensures FromRest("a:::b::k", InitialOptions) == Decoded(["a", ":b"], "k", None)
  {
    var parts := ["a", ":b", "k"];
    StraddleParts();
    FromRestParts("a:::b::k", InitialOptions);
    assert parts[..2] == ["a", ":b"];
  }

  /** "a:::b::k" split on "::": the first match starts inside "a:". */
  lemma StraddleParts()
    ensures Split("a:::b::k", "::") == ["a", ":b", "k"]
  {
    var parts := ["a", ":b", "k"];
    JoinCons(":b", ["k"], "::");
    JoinCons("a", [":b", "k"], "::");
    assert parts == ["a"] + [":b", "k"];
    assert Join(parts, "::") == "a:::b::k";
    AvoidsIsClean("a", "::");
    NotAt(":b::", "::", 0, 1);
    NotAt(":b::", "::", 1, 0);
    AvoidsIsClean("k", "::");
    assert SplitsBack(parts, "::");
    SplitJoin(parts, "::");
  }

  /** Under the reset default "/a/b/c/d" holds no "::", so it has no namespace. */
  lemma DecodeAfterResetExample()
    ensures FromFullName("/a/b/c/d", ResetOptions) == Decoded([], "/a/b/c/d", Some(ErrKeyNotHaveNamespace))
  {
    var s := "/a/b/c/d";
    assert Avoids(s, "::");
    AvoidsIsClean(s, "::");
    assert Unprefixed(s, ResetOptions) == s;
    SplitFree(s, "::");
  }

  /** namespace_test.go:152-167: with the etcd preset as the stored default,
      "/a/b/c/d" decodes without per-call options; after a reset the default
      delimiter is "::" again and the same name has no namespace. */
  method SetThenResetScenario() returns (afterSet: Decoded, afterReset: Decoded)
    ensures afterSet == Decoded(Abc, "d", None)
    ensures afterReset == Decoded([], "/a/b/c/d", Some(ErrKeyNotHaveNamespace))
  {
    var defaults := new Defaults();
    defaults.SetDefaultOptions([WithEtcdStyle]);
    assert ApplyAll(defaults.defaultOptions, []) == defaults.defaultOptions;
    DecodeEtcdStyleExample();
    afterSet := defaults.FromFullName("/a/b/c/d", []);
    defaults.ReSetDefaultOptions();
    assert ApplyAll(defaults.defaultOptions, []) == ResetOptions;
    DecodeAfterResetExample();
    afterReset := defaults.FromFullName("/a/b/c/d", []);
  }

  /** namespace_test.go:169-184: random keys under the etcd and then the
      redis preset as stored default start with the namespace and the key
      delimiter, whatever identifiers the generator produces. The test runs
      after the reset of namespace_test.go:161, so the algorithm it asks the
      generator for is the zero value, and `next` must succeed for it. */
  method RandomKeyScenario(next: IdGenAlgorithm -> GeneratorOutcome) returns (etcdName: string, redisName: string)
    requires next(ZeroAlgorithm).Generated?
    ensures HasPrefix(etcdName, "/a/b/c/")
    ensures HasPrefix(redisName, "a::b::c::")
  {
    var defaults := new Defaults();
    defaults.ReSetDefaultOptions();
    JoinAbc();
    defaults.SetDefaultOptions([WithEtcdStyle]);
    assert ApplyAll(defaults.defaultOptions, []) == Options("/", "/", "/", ZeroAlgorithm);
    var r := defaults.RandomKey(Abc, next, []);
    etcdName := r.0;
    defaults.SetDefaultOptions([WithRedisStyle]);
    assert ApplyAll(defaults.defaultOptions, []) == ResetOptions;
    r := defaults.RandomKey(Abc, next, []);
    redisName := r.0;
  }
}
