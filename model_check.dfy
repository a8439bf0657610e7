/**
 * The launcher's check that the language models the scanner needs are
 * installed (`check_required_models` in run.py): every required model must
 * be the prefix of some installed model's name.
 *
 * The HTTP call that fetches the list of installed models is not modelled;
 * its decoded reply is the input.
 */
module ModelCheck {
  import opened Wrappers
  import opened Text

  /**
   * The decoded tags reply: `Absent` when it is falsy (no reply, or an
   * empty object), otherwise the names under its 'models' key, `None` when
   * that key is missing.
   */
  datatype TagsData = Absent | Tags(models: Option<seq<string>>)

  const Required: seq<string> := ["deepseek-r1:14b", "llama3.2:latest"]

  /** Some installed name starts with `model`. */
  predicate Provided(names: seq<string>, model: string) {
    exists name :: name in names && StartsWith(name, model)
  }

  /** The required models among the first `k` that no installed name provides, in the required order. */
  function MissingUpTo(names: seq<string>, k: nat): seq<string>
    requires k <= |Required|
  {
    if k == 0 then []
    else MissingUpTo(names, k - 1) + (if Provided(names, Required[k - 1]) then [] else [Required[k - 1]])
  }

  /** The `(ok, missing_models)` pair the check returns. */
  function Check(tags: TagsData): (bool, seq<string>) {
    match tags
    case Absent => (false, [])
    case Tags(None) => (false, [])
    case Tags(Some(names)) => (MissingUpTo(names, |Required|) == [], MissingUpTo(names, |Required|))
  }

  /**
   * The missing list holds exactly the required models no installed name
   * starts with, each once, in the required order; the check succeeds
   * exactly when that list is empty.
   */
  lemma {:induction false} MissingMeaning(names: seq<string>, k: nat)
    requires k <= |Required|
    ensures forall m :: m in MissingUpTo(names, k) <==> exists j :: 0 <= j < k && Required[j] == m && !Provided(names, m)
    ensures |MissingUpTo(names, k)| <= k
    ensures |MissingUpTo(names, k)| == k ==> MissingUpTo(names, k) == Required[..k]
  {
    if k > 0 {
      MissingMeaning(names, k - 1);
      assert Required[..k] == Required[..k - 1] + [Required[k - 1]];
    }
  }

  /** Whatever the reply, the check succeeds exactly when nothing is missing, and a reply without models fails with nothing listed. */
  lemma CheckMeaning(tags: TagsData)
    ensures Check(tags).0 <==> tags.Tags? && tags.models.Some? && Check(tags).1 == []
    ensures tags.Absent? || tags.models.None? ==> Check(tags) == (false, [])
    ensures tags.Tags? && tags.models.Some? ==>
      (forall m :: m in Check(tags).1 <==> m in Required && !Provided(tags.models.value, m))
      && (|Check(tags).1| == 2 ==> Check(tags).1 == ["deepseek-r1:14b", "llama3.2:latest"])
  {
    if tags.Tags? && tags.models.Some? {
      MissingMeaning(tags.models.value, |Required|);
    }
  }

  /** Matching is by prefix: a longer installed name such as a quantised variant provides the model. */
  lemma PrefixProvides(names: seq<string>, model: string, variant: string)
    requires model + variant in names
    ensures Provided(names, model)
  {
    Affixes(model, variant);
  }

  /** `check_required_models`: the loop over the required models, appending those no installed name starts with. */
  method CheckRequiredModels(tags: TagsData) returns (ok: bool, missing: seq<string>)
    ensures (ok, missing) == Check(tags)
  {
    if tags.Absent? || tags.models.None? {
      return false, [];
    }
    var available := tags.models.value;
    missing := [];
    for k := 0 to |Required|
      invariant missing == MissingUpTo(available, k)
    {
      var model := Required[k];
      var any := false;
      for i := 0 to |available|
        invariant any <==> exists j :: 0 <= j < i && StartsWith(available[j], model)
      {
        if StartsWith(available[i], model) {
          any := true;
        }
      }
      if !any {
        missing := missing + [model];
      }
    }
    ok := |missing| == 0;
  }
}
