/**
 * Turning a validation failure into per-field messages: each issue whose
 * path starts with a non-empty field name writes its message under that
 * name, in issue order, so the last issue for a field wins.
 */
module FormErrors {
  import opened Types

  /** A validation issue: the path into the form and its message. */
  datatype Issue = Issue(path: seq<string>, message: string)

  /** `if (e.path[0])`: the field an issue is filed under, when its path starts with a name. */
  function FieldOf(i: Issue): (r: Option<string>)
    ensures r.Some? <==> |i.path| > 0 && i.path[0] != ""
  {
    if |i.path| > 0 && i.path[0] != "" then Some(i.path[0]) else None
  }

  /** The errors after the first issues have been handled. */
  function ErrorsOf(issues: seq<Issue>): map<string, string>
  {
    if issues == [] then map[]
    else
      var last := issues[|issues| - 1];
      var before := ErrorsOf(issues[..|issues| - 1]);
      match FieldOf(last)
      case Some(f) => before[f := last.message]
      case None => before
  }

  /** The forEach that fills `fieldErrors`. */
  method CollectErrors(issues: seq<Issue>) returns (errors: map<string, string>)
    ensures errors == ErrorsOf(issues)
  {
    errors := map[];
    for n := 0 to |issues|
      invariant errors == ErrorsOf(issues[..n])
    {
      assert issues[..n + 1][..n] == issues[..n];
      var field := FieldOf(issues[n]);
      if field.Some? {
        errors := errors[field.value := issues[n].message];
      }
    }
    assert issues[..|issues|] == issues;
  }

  /** One more issue writes its message under its field, if it names one. */
  lemma ErrorsOfSnoc(issues: seq<Issue>, x: Issue)
    ensures ErrorsOf(issues + [x]) == if FieldOf(x).Some? then ErrorsOf(issues)[FieldOf(x).value := x.message] else ErrorsOf(issues)
  {
    assert (issues + [x])[..|issues|] == issues;
  }

  /** An issue is the last one filed under a field. */
  ghost predicate LastFor(issues: seq<Issue>, f: string, i: int)
  {
    0 <= i < |issues| && FieldOf(issues[i]) == Some(f)
    && forall j :: i < j < |issues| ==> FieldOf(issues[j]) != Some(f)
  }

  /** A field has an error iff some issue is filed under it, and the message is that of the last such issue. */
  lemma {:induction false} LastIssueWins(issues: seq<Issue>, f: string)
    ensures f in ErrorsOf(issues) <==> exists i :: 0 <= i < |issues| && FieldOf(issues[i]) == Some(f)
    ensures f in ErrorsOf(issues) ==> exists i :: LastFor(issues, f, i) && ErrorsOf(issues)[f] == issues[i].message
  {
    if issues != [] {
      var n := |issues| - 1;
      var before := issues[..n];
      LastIssueWins(before, f);
      if FieldOf(issues[n]) == Some(f) {
        assert LastFor(issues, f, n);
      } else {
        if f in ErrorsOf(before) {
          var i :| LastFor(before, f, i) && ErrorsOf(before)[f] == before[i].message;
          assert LastFor(issues, f, i);
        }
        if exists i :: 0 <= i < |issues| && FieldOf(issues[i]) == Some(f) {
          var i :| 0 <= i < |issues| && FieldOf(issues[i]) == Some(f);
          assert before[i] == issues[i];
        }
      }
    }
  }

  /** Only fields that some issue names can have an error. */
  lemma {:induction false} ErrorsOnlyForNamedFields(issues: seq<Issue>)
    ensures forall f :: f in ErrorsOf(issues) ==> exists i :: 0 <= i < |issues| && FieldOf(issues[i]) == Some(f)
  {
    forall f | f in ErrorsOf(issues)
      ensures exists i :: 0 <= i < |issues| && FieldOf(issues[i]) == Some(f)
    {
      LastIssueWins(issues, f);
    }
  }
}
