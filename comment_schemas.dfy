/** The request-body schema of the add-comment route */
module CommentSchemas {
  import opened Wrappers
  import opened Json
  import opened Zod

  /** What the schema parses a body into: the ranking is filled in when absent */
  datatype CommentInput = CommentInput(content: string, ranking: real)

  const DefaultRanking := 0.0
  const MinRanking := 0
  const MaxRanking := 5

  /** content is a string; a present ranking is a number from 0 to 5, both ends included */
  predicate CreateCommentValid(body: Json) {
    && body.JObject?
    && IsString(Get(body.fields, "content"))
    && var ranking := Get(body.fields, "ranking");
       ranking.None? || (IsNumber(ranking) && 0.0 <= ranking.value.n <= 5.0)
  }

  /** createCommentSchema.parse: `ranking` is `z.number().min(0).max(5).optional().default(0)` */
  function ParseCreateComment(body: Json): (r: Parsed<CommentInput>)
    ensures r.Parsed? <==> CreateCommentValid(body)
    ensures r.Parsed? ==> r.value.content == body.fields["content"].s
    ensures r.Parsed? && "ranking" !in body.fields ==> r.value.ranking == DefaultRanking
    ensures r.Parsed? && "ranking" in body.fields ==> r.value.ranking == body.fields["ranking"].n
    ensures r.Failed? ==> |r.issues| > 0
  {
    if !body.JObject? then Failed(NotAnObject(body))
    else
      var f := body.fields;
      var content := StringField("content", Get(f, "content"), false, "Content is required");
      var bounds := [AtLeast(MinRanking), AtMost(MaxRanking)];
      var ranking := NumberField("ranking", Get(f, "ranking"), true, Required, bounds);
      assert IsNumber(Get(f, "ranking")) ==>
        ((forall k :: 0 <= k < |bounds| ==> Passes(bounds[k], f["ranking"].n)) <==> 0.0 <= f["ranking"].n <= 5.0) by {
        if IsNumber(Get(f, "ranking")) {
          assert Passes(bounds[0], f["ranking"].n) && Passes(bounds[1], f["ranking"].n) <==> 0.0 <= f["ranking"].n <= 5.0;
        }
      }
      var issues := content.issues + ranking.issues;
      if issues == [] then Parsed(CommentInput(content.value.value, ranking.value.GetOr(DefaultRanking)))
      else Failed(issues)
  }

  /** A body without content is refused with the schema's own message */
  lemma ContentRequired(f: map<string, Json>)
    requires "content" !in f
    ensures ParseCreateComment(JObject(f)).Failed?
    ensures Issue(["content"], "Content is required") in ParseCreateComment(JObject(f)).issues
  {
  }

  /** The bounds are inclusive: 0 and 5 pass, anything outside fails with the bound it crosses */
  lemma RankingBounds(content: string, ranking: real)
    ensures var r := ParseCreateComment(JObject(map["content" := JString(content), "ranking" := JNumber(ranking)]));
      && (r.Parsed? <==> 0.0 <= ranking <= 5.0)
      && (ranking < 0.0 ==> r == Failed([Issue(["ranking"], "Number must be greater than or equal to 0")]))
      && (ranking > 5.0 ==> r == Failed([Issue(["ranking"], "Number must be less than or equal to 5")]))
  {
    var checks := [AtLeast(MinRanking), AtMost(MaxRanking)];
    assert CheckMessage(checks[0]) == "Number must be greater than or equal to 0";
    assert CheckMessage(checks[1]) == "Number must be less than or equal to 5";
    assert checks[1..][1..] == [];
  }

  /** The concrete cases: 6 and -1 are refused, 0, 5 and the fraction 2.5 accepted (no integer check) */
  lemma RankingExamples(content: string)
    ensures ParseCreateComment(JObject(map["content" := JString(content), "ranking" := JNumber(6.0)])).Failed?
    ensures ParseCreateComment(JObject(map["content" := JString(content), "ranking" := JNumber(-1.0)])).Failed?
    ensures ParseCreateComment(JObject(map["content" := JString(content), "ranking" := JNumber(2.5)]))
      == Parsed(CommentInput(content, 2.5))
    ensures ParseCreateComment(JObject(map["content" := JString(content), "ranking" := JNumber(0.0)])).Parsed?
    ensures ParseCreateComment(JObject(map["content" := JString(content), "ranking" := JNumber(5.0)])).Parsed?
  {
  }

  /** An absent ranking parses as 0 */
  lemma RankingDefaults(content: string)
    ensures ParseCreateComment(JObject(map["content" := JString(content)])) == Parsed(CommentInput(content, 0.0))
  {
  }
}
