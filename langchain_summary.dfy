// `generate_exec_summary`: the skeleton built from the v2 document is polished by
// the summary chain, retried at most `max_retries + 1` times, and is itself the
// summary when no attempt parses.
module LangchainSummary {
  import opened Wrappers
  import opened Json
  import opened LangchainChains
  import SkeletonBuilder

  /** One polish attempt: the chain output parsed, or the error the call raised. */
  function SummaryAttempts(llm: nat -> Result<string>, minWords: int, maxWords: int): nat -> Result<string>
  {
    (k: nat) => if llm(k).Err? then Err(llm(k).msg) else ParseExecSummary(llm(k).value, minWords, maxWords)
  }

  /** `generate_exec_summary`: the skeleton is built first (its errors propagate),
      then the chain is invoked until an attempt parses, at most `max_retries + 1`
      times; when none does, the skeleton is the summary. `llm(k)` is the output
      of the k-th chain call, `Err` when the call raises. */
  method GenerateExecSummary(show: Json -> string, v2: Json, llm: nat -> Result<string>,
                             maxRetries: int, minWords: int, maxWords: int)
    returns (r: Result<string>, calls: nat)
    ensures SkeletonBuilder.BuildSkeleton(show, v2).Err? ==> r == SkeletonBuilder.BuildSkeleton(show, v2) && calls == 0
    ensures SkeletonBuilder.BuildSkeleton(show, v2).Ok? ==> r.Ok? && calls <= Attempts(maxRetries)
    ensures SkeletonBuilder.BuildSkeleton(show, v2).Ok? ==>
      (match FirstOk(SummaryAttempts(llm, minWords, maxWords), Attempts(maxRetries))
        case Some(k) => calls == k + 1 && r == SummaryAttempts(llm, minWords, maxWords)(k)
        case None => calls == Attempts(maxRetries) && r == SkeletonBuilder.BuildSkeleton(show, v2))
  {
    var skeleton := SkeletonBuilder.BuildSkeleton(show, v2);
    if skeleton.Err? {
      return skeleton, 0;
    }
    ghost var outcome := SummaryAttempts(llm, minWords, maxWords);
    calls := 0;
    var attempt := 0;
    while attempt < Attempts(maxRetries)
      invariant attempt <= Attempts(maxRetries) && calls == attempt
      invariant FirstOk(outcome, attempt) == None
    {
      calls := calls + 1;
      var raw := llm(attempt);
      if raw.Ok? {
        var result := ParseExecSummary(raw.value, minWords, maxWords);
        if result.Ok? {
          FirstOkFound(outcome, attempt, Attempts(maxRetries));
          return result, calls;
        }
      }
      assert outcome(attempt).Err?;
      attempt := attempt + 1;
    }
    return skeleton, calls;
  }
}
