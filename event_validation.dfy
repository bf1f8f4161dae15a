/** The validation rules of the `Event` model, as an ordered list of rules
    checked against an event's data before it is saved.

    The framework's URL validator and the tag allow-list lookup are not part
    of this model: the first is the parameter `isUrl`, the second the set
    `eventTags` of tags permitted for the event category. */
module EventValidation {

  import opened Wrappers
  import opened StringOrder
  import opened EventModel

  /** HTTP status carried by the error the tag rule throws. */
  const InternalServerError: nat := 500

  /** Reason carried by the error the tag rule throws. */
  const InvalidTagsReason: string := "Contains invalid tags"

  /** One rule registered by `validations()`. */
  datatype Rule =
    | UrlIsValid                         // the framework's `.url` validator on the `url` field
    | TagsAreValid(description: string)  // the custom rule over `tags`

  /** Why a rule rejected an event. */
  datatype Failure =
    | NotAUrl                            // reported by the `.url` validator
    | Abort(status: nat, reason: string) // thrown by the custom tag rule

  datatype Outcome = Passed | Failed(failures: seq<Failure>)

  /** The allow-list check scoped to events: some tag is not permitted. */
  predicate ContainsInvalidTags(tags: seq<string>, eventTags: set<string>)
  {
    exists t :: t in tags && t !in eventTags
  }

  /** The rules in the order they are registered. */
  function Validations(): seq<Rule>
  {
    [UrlIsValid, TagsAreValid("Tags must be valid")]
  }

  /** Applies one rule: `None` when it accepts the event. The URL rule
      rejects an event whose `url` is not a URL; the tag rule throws the
      internal-server-error abort when some tag is outside the allow-list. */
  function Check(rule: Rule, e: EventData, isUrl: string -> bool, eventTags: set<string>): (r: Option<Failure>)
    ensures rule.UrlIsValid? ==> (r.None? <==> isUrl(e.url))
    ensures rule.TagsAreValid? ==> (r.None? <==> forall t :: t in e.tags ==> t in eventTags)
    ensures r.Some? ==> r.value == (if rule.UrlIsValid? then NotAUrl else Abort(InternalServerError, InvalidTagsReason))
  {
    match rule
    case UrlIsValid =>
      if isUrl(e.url) then None else Some(NotAUrl)
    case TagsAreValid(_) =>
      if ContainsInvalidTags(e.tags, eventTags) then Some(Abort(InternalServerError, InvalidTagsReason))
      else None
  }

  /** Applies the rules in order and collects the failures they report. A
      single rule contributes its failure or nothing; how a longer list
      combines is stated by `RunConcat`. */
  function Run(rules: seq<Rule>, e: EventData, isUrl: string -> bool, eventTags: set<string>): (failures: seq<Failure>)
    ensures |failures| <= |rules|
    ensures forall f :: f in failures <==>
      exists i :: 0 <= i < |rules| && Check(rules[i], e, isUrl, eventTags) == Some(f)
    ensures |rules| == 1 ==>
      failures == match Check(rules[0], e, isUrl, eventTags) case Some(f) => [f] case None => []
  {
    if rules == [] then
      []
    else
      var rest := Run(rules[1..], e, isUrl, eventTags);
      assert forall i :: 0 < i < |rules| ==> rules[i] == rules[1..][i - 1];
      match Check(rules[0], e, isUrl, eventTags)
      case Some(f) => [f] + rest
      case None => rest
  }

  /** Rules run left to right: the failures of two lists of rules run one
      after the other are those of the first list followed by those of the
      second. With the one-rule case of `Run`, this says each failing rule
      contributes exactly one failure, in the order the rules are registered. */
  lemma {:induction false} RunConcat(a: seq<Rule>, b: seq<Rule>, e: EventData, isUrl: string -> bool, eventTags: set<string>)
    ensures Run(a + b, e, isUrl, eventTags) == Run(a, e, isUrl, eventTags) + Run(b, e, isUrl, eventTags)
  {
    if a == [] {
      assert a + b == b;
    } else {
      assert (a + b)[1..] == a[1..] + b;
      RunConcat(a[1..], b, e, isUrl, eventTags);
    }
  }

  /** Validates an event's data: it passes exactly when its `url` is a URL
      and every tag is in the event allow-list; otherwise each violated rule
      contributes its failure. */
  function Validate(e: EventData, isUrl: string -> bool, eventTags: set<string>): (r: Outcome)
    ensures r == Passed <==> isUrl(e.url) && forall t :: t in e.tags ==> t in eventTags
    ensures r.Failed? ==> r.failures != []
    ensures r.Failed? ==> (NotAUrl in r.failures <==> !isUrl(e.url))
    ensures r.Failed? ==>
      (Abort(InternalServerError, InvalidTagsReason) in r.failures <==> exists t :: t in e.tags && t !in eventTags)
    ensures r.Failed? ==> forall f :: f in r.failures ==> f == NotAUrl || f == Abort(InternalServerError, InvalidTagsReason)
    ensures r.Failed? ==> (r.failures ==
      (if isUrl(e.url) then [] else [NotAUrl]) +
      (if ContainsInvalidTags(e.tags, eventTags) then [Abort(InternalServerError, InvalidTagsReason)] else []))
  {
    var rules := Validations();
    assert rules == [UrlIsValid] + [TagsAreValid("Tags must be valid")];
    RunConcat([UrlIsValid], [TagsAreValid("Tags must be valid")], e, isUrl, eventTags);
    var failures := Run(rules, e, isUrl, eventTags);
    assert Check(rules[0], e, isUrl, eventTags) == if isUrl(e.url) then None else Some(NotAUrl);
    assert Check(rules[1], e, isUrl, eventTags) ==
      if ContainsInvalidTags(e.tags, eventTags) then Some(Abort(InternalServerError, InvalidTagsReason)) else None;
    if failures == [] then
      Passed
    else
      assert failures[0] in failures;
      Failed(failures)
  }

  /** Sorting the tags does not change whether, or why, an event is valid:
      validating before or after the pre-save hooks gives the same outcome. */
  lemma ValidateNormalized(d: EventData, isUrl: string -> bool, eventTags: set<string>)
    ensures Validate(Normalized(d), isUrl, eventTags) == Validate(d, isUrl, eventTags)
  {
    var n := Normalized(d);
    forall t ensures t in n.tags <==> t in d.tags {
      assert t in n.tags <==> t in multiset(n.tags);
    }
    assert ContainsInvalidTags(n.tags, eventTags) == ContainsInvalidTags(d.tags, eventTags);
    forall rule ensures Check(rule, n, isUrl, eventTags) == Check(rule, d, isUrl, eventTags) {
    }
    RunCheckwise(Validations(), n, d, isUrl, eventTags);
  }

  /** Two events that every rule judges alike get the same failures. */
  lemma {:induction false} RunCheckwise(rules: seq<Rule>, d: EventData, e: EventData, isUrl: string -> bool, eventTags: set<string>)
    requires forall i :: 0 <= i < |rules| ==> Check(rules[i], d, isUrl, eventTags) == Check(rules[i], e, isUrl, eventTags)
    ensures Run(rules, d, isUrl, eventTags) == Run(rules, e, isUrl, eventTags)
  {
    if rules != [] {
      RunCheckwise(rules[1..], d, e, isUrl, eventTags);
    }
  }
}
