/** Concrete registry scenarios: the causes of the registry test fixtures,
    the create-and-resume case of the `_deduplicated` docstring, and the
    login fallback handlers of the operator registry. */
module Scenarios {
  import opened Wrappers
  import opened Dicts
  import opened Diffs
  import opened Handlers
  import opened Registries

  /** The body of the fixture causes: one label and one annotation. */
  function FixtureBody(): map<string, Value>
  {
    map["metadata" := Map(map[
      "labels" := Map(map["somelabel" := Str("somevalue")]),
      "annotations" := Map(map["someannotation" := Str("somevalue")])])]
  }

  /** A non-initial update whose diff changes one field. */
  function FieldDiffCause(): Cause
  {
    ChangingCause(FixtureBody(), Update, false, false,
      Some([DiffItem(Change, ["some-field"], Str("old"), Str("new"))]))
  }

  function FieldHandler(field: FieldPath, labels: MetaFilter): ResourceHandler
  {
    ChangingHandler("fn", 1, labels, [], None, None, Some(field), false, false, false)
  }

  /** With the field diff: a handler of the changed field matches, one of a
      deeper field also does, and a field that only
      shares a name prefix does not. Label tokens are checked too. */
  lemma FieldDiffMatching(calls: Calls)
    ensures Matches(FieldHandler(["some-field"], []), FieldDiffCause(), ChangedFields(FieldDiffCause()), false, calls)
    ensures Matches(FieldHandler(["some-field", "sub"], [("somelabel", Present)]), FieldDiffCause(),
                    ChangedFields(FieldDiffCause()), false, calls)
    ensures !Matches(FieldHandler(["some"], []), FieldDiffCause(), ChangedFields(FieldDiffCause()), false, calls)
    ensures !Matches(FieldHandler(["some-field"], [("somelabel", Absent)]), FieldDiffCause(),
                     ChangedFields(FieldDiffCause()), false, calls)
    ensures Matches(FieldHandler(["some-field"], [("somelabel", Literal("somevalue")), ("otherlabel", Absent)]),
                    FieldDiffCause(), ChangedFields(FieldDiffCause()), false, calls)
  {
    var cause := FieldDiffCause();
    var d := cause.diff.value;
    assert d[0].field == ["some-field"];
    assert ChangedFields(cause) == {["some-field"]};
    assert ["some-field"] <= ["some-field", "sub"];
    assert |"some"| != |"some-field"|;
    assert ["some"][0] != ["some-field"][0];
    assert !(["some"] <= ["some-field"]) && !(["some-field"] <= ["some"]);
    assert LabelsOf(cause) == map["somelabel" := Str("somevalue")];
    var absent := FieldHandler(["some-field"], [("somelabel", Absent)]);
    assert absent.labels[0] == ("somelabel", Absent);
    assert !KeyPasses("somelabel", Absent, LabelsOf(cause), BuildKwargs(cause), calls);
    assert !MetadataMatches(absent.labels, LabelsOf(cause), cause, calls);
  }

  /** A function registered for both creation and resuming is called once:
      deduplication keeps the creation handler. */
  lemma CreateAndResumeDeduplicated(create: ResourceHandler, resume: ResourceHandler)
    requires create.fn == resume.fn
    ensures Deduplicated([create, resume], ResourceFnOf) == [create]
  {
    assert [create, resume][..1] == [create];
    assert [create][..0] == [];
    assert FnsOf([create], ResourceFnOf) == {create.fn};
    assert Deduplicated([create], ResourceFnOf) == [create];
  }

  function LoginHandler(id: string, fn: CallbackId, fallback: bool): ActivityHandler
  {
    ActivityHandler(id, fn, Some(Authentication), fallback)
  }

  /** The two library login handlers are fallbacks: both run when the
      operator has no login handler of its own, and neither runs when it has
      one. */
  lemma LoginFallbacks()
    ensures var pykube := LoginHandler("login_via_pykube", 1, true);
      var client := LoginHandler("login_via_client", 2, true);
      var own := LoginHandler("remote_cluster_a", 3, false);
      && ActivitySelection([pykube, client], Authentication) == [pykube, client]
      && ActivitySelection([pykube, client, own], Authentication) == [own]
  {
    var pykube := LoginHandler("login_via_pykube", 1, true);
    var client := LoginHandler("login_via_client", 2, true);
    var own := LoginHandler("remote_cluster_a", 3, false);
    var two := [pykube, client];
    var three := [pykube, client, own];
    assert two[..1] == [pykube] && [pykube][..0] == [];
    assert Filter(two, RegularTo(Authentication)) == [];
    assert Filter(two, FallbackTo(Authentication)) == two;
    assert three[..2] == two;
    assert Filter(three, RegularTo(Authentication)) == [own];
  }
}
