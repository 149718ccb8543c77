/**
  The completion client `get_ai` (bot.py:87-110): with AI disabled it answers
  None at once; otherwise it asks each model of the roster in order and
  answers the stripped text of the first one that succeeds, or None when
  every model fails.
 */
module Completion {
  import opened Wrappers
  import opened Text

  /** What one provider request does: it returns the text of the first
      choice, or it raises (a network or provider error, or a malformed
      response). */
  datatype Outcome = Ok(content: string) | Failed

  /** The behaviour of the provider for one request: given the model name
      and the user prompt, the outcome of that request. */
  type Provider = (string, string) -> Outcome

  /** The model roster, in fallback order. */
  const MODELS: seq<string> := [
    "llama-3.3-70b-versatile",
    "llama-3.1-8b-instant",
    "llama-3.2-3b-preview"
  ]

  /** The reply of the first model in `models` whose request succeeds,
      stripped; None when all of them fail. */
  function FirstSuccess(models: seq<string>, prompt: string, call: Provider): (r: Option<string>)
    ensures r.Some? ==> exists k :: 0 <= k < |models| && call(models[k], prompt).Ok?
                                    && r == Some(Strip(call(models[k], prompt).content))
  {
    if models == [] then None
    else match call(models[0], prompt)
      case Ok(content) => Some(Strip(content))
      case Failed =>
        var r := FirstSuccess(models[1..], prompt, call);
        assert r.Some? ==> exists k :: 0 <= k < |models| && call(models[k], prompt).Ok?
                                       && r == Some(Strip(call(models[k], prompt).content)) by {
          if r.Some? {
            var k :| 0 <= k < |models[1..]| && call(models[1..][k], prompt).Ok?
                     && r == Some(Strip(call(models[1..][k], prompt).content));
            assert models[1..][k] == models[k + 1];
          }
        }
        r
  }

  /** How many requests the search issues: up to and including the first
      success, or one per model when every request fails. */
  function AttemptCount(models: seq<string>, prompt: string, call: Provider): (n: nat)
    ensures n <= |models|
    ensures models != [] ==> n >= 1
  {
    if models == [] then 0
    else match call(models[0], prompt)
      case Ok(_) => 1
      case Failed => 1 + AttemptCount(models[1..], prompt, call)
  }

  /** What `get_ai` answers, AI enabled or not. */
  function AiReply(useAi: bool, models: seq<string>, prompt: string, call: Provider): (r: Option<string>)
    ensures !useAi ==> r == None
    ensures r.Some? ==> useAi && exists k :: 0 <= k < |models| && call(models[k], prompt).Ok?
  {
    if useAi then FirstSuccess(models, prompt, call) else None
  }

  /** The models `get_ai` asks, in the order it asks them. */
  function Asked(useAi: bool, models: seq<string>, prompt: string, call: Provider): (r: seq<string>)
    ensures r <= models
    ensures !useAi ==> r == []
    ensures useAi && models != [] ==> r != [] && r[0] == models[0]
  {
    if useAi then models[..AttemptCount(models, prompt, call)] else []
  }

  /** `get_ai(text)`: walks `models` in order with an early return on the
      first success. `tried` lists the models it sent a request to. */
  method GetAi(useAi: bool, models: seq<string>, prompt: string, call: Provider)
    returns (reply: Option<string>, tried: seq<string>)
    ensures reply == AiReply(useAi, models, prompt, call)
    ensures tried == Asked(useAi, models, prompt, call)
    ensures !useAi ==> reply == None && tried == []
    ensures tried <= models
  {
    if !useAi {
      return None, [];
    }
    tried := [];
    for i := 0 to |models|
      invariant tried == models[..i]
      invariant FirstSuccess(models, prompt, call) == FirstSuccess(models[i..], prompt, call)
      invariant AttemptCount(models, prompt, call) == i + AttemptCount(models[i..], prompt, call)
    {
      var model := models[i];
      PrefixGrows(models, i);
      tried := tried + [model];
      SearchStep(models, i, prompt, call);
      match call(model, prompt) {
        case Ok(content) =>
          assert AttemptCount(models, prompt, call) == i + 1;
          return Some(Strip(content)), tried;
        case Failed =>
      }
    }
    reply := None;
  }

  /** The prefix of `models` up to `i`, extended by element `i`. */
  lemma PrefixGrows(models: seq<string>, i: nat)
    requires i < |models|
    ensures models[..i] + [models[i]] == models[..i + 1]
  {
  }

  /** One step of the search from position `i` of the roster. */
  lemma SearchStep(models: seq<string>, i: nat, prompt: string, call: Provider)
    requires i < |models|
    ensures FirstSuccess(models[i..], prompt, call)
         == match call(models[i], prompt)
            case Ok(content) => Some(Strip(content))
            case Failed => FirstSuccess(models[i + 1..], prompt, call)
    ensures AttemptCount(models[i..], prompt, call)
         == match call(models[i], prompt)
            case Ok(_) => 1
            case Failed => 1 + AttemptCount(models[i + 1..], prompt, call)
  {
    assert models[i..][0] == models[i];
    assert models[i..][1..] == models[i + 1..];
  }

  /** The search answers None exactly when every model fails, and then it has
      asked every model. */
  lemma {:induction false} NoneIffAllFail(models: seq<string>, prompt: string, call: Provider)
    ensures FirstSuccess(models, prompt, call) == None
        <==> forall k :: 0 <= k < |models| ==> call(models[k], prompt) == Failed
    ensures FirstSuccess(models, prompt, call) == None ==> AttemptCount(models, prompt, call) == |models|
  {
    if models != [] {
      NoneIffAllFail(models[1..], prompt, call);
      if call(models[0], prompt) == Failed {
        forall k | 0 <= k < |models| - 1 ensures models[1..][k] == models[k + 1] { }
      }
    }
  }

  /** When model `k` is the first that succeeds, the search answers its
      stripped text and has issued exactly `k + 1` requests. */
  lemma {:induction false} FirstSuccessIsFirstOk(models: seq<string>, prompt: string, call: Provider, k: nat)
    requires k < |models|
    requires call(models[k], prompt).Ok?
    requires forall j :: 0 <= j < k ==> call(models[j], prompt) == Failed
    ensures FirstSuccess(models, prompt, call) == Some(Strip(call(models[k], prompt).content))
    ensures AttemptCount(models, prompt, call) == k + 1
  {
    if k > 0 {
      assert call(models[0], prompt) == Failed;
      forall j | 0 <= j < k - 1 ensures call(models[1..][j], prompt) == Failed {
        assert models[1..][j] == models[j + 1];
      }
      FirstSuccessIsFirstOk(models[1..], prompt, call, k - 1);
    }
  }

  /** A reply comes from the last model asked, every model asked before it
      failed, and the reply is that model's text stripped. */
  lemma {:induction false} ReplyComesFromLastAsked(models: seq<string>, prompt: string, call: Provider)
    requires FirstSuccess(models, prompt, call).Some?
    ensures 0 < AttemptCount(models, prompt, call)
    ensures call(models[AttemptCount(models, prompt, call) - 1], prompt).Ok?
    ensures FirstSuccess(models, prompt, call)
         == Some(Strip(call(models[AttemptCount(models, prompt, call) - 1], prompt).content))
    ensures forall j :: 0 <= j < AttemptCount(models, prompt, call) - 1 ==> call(models[j], prompt) == Failed
  {
    if call(models[0], prompt) == Failed {
      var tail := models[1..];
      assert FirstSuccess(models, prompt, call) == FirstSuccess(tail, prompt, call);
      ReplyComesFromLastAsked(tail, prompt, call);
      var n := AttemptCount(tail, prompt, call);
      assert AttemptCount(models, prompt, call) == n + 1;
      assert tail[n - 1] == models[n];
      forall j | 0 <= j < n ensures call(models[j], prompt) == Failed {
        if j > 0 {
          assert models[j] == tail[j - 1];
        }
      }
    }
  }

  /** Models after the first success are never consulted: appending models to
      the roster changes the answer only when every earlier model fails. */
  lemma {:induction false} FirstSuccessAppend(a: seq<string>, b: seq<string>, prompt: string, call: Provider)
    ensures FirstSuccess(a + b, prompt, call)
        == if FirstSuccess(a, prompt, call).Some? then FirstSuccess(a, prompt, call)
           else FirstSuccess(b, prompt, call)
  {
    if a == [] {
      assert a + b == b;
    } else {
      assert (a + b)[0] == a[0];
      assert (a + b)[1..] == a[1..] + b;
      FirstSuccessAppend(a[1..], b, prompt, call);
    }
  }

  /** A reply never starts or ends with whitespace; it may be empty, when the
      first successful model's text is blank. */
  lemma ReplyIsStripped(useAi: bool, models: seq<string>, prompt: string, call: Provider)
    requires AiReply(useAi, models, prompt, call).Some?
    ensures var t := AiReply(useAi, models, prompt, call).value;
      t == "" || (!IsSpace(t[0]) && !IsSpace(t[|t| - 1]))
  {
    ReplyComesFromLastAsked(models, prompt, call);
  }
}
