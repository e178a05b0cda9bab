/** The speech-recognition hook: it turns recognition results into one
    transcript and tracks whether the recogniser is listening. */
module Speech {
  import opened Wrappers

  datatype Alternative = Alternative(transcript: string, confidence: real)

  /** One recognition result: final or interim, with its alternatives, the
      first being the most likely. */
  datatype RecognitionResult = RecognitionResult(isFinal: bool, alternatives: seq<Alternative>)

  /** Every result has a first alternative to read. */
  ghost predicate Readable(rs: seq<RecognitionResult>) {
    forall i :: 0 <= i < |rs| ==> |rs[i].alternatives| > 0
  }

  /** The results an event reports as changed: from `resultIndex` on. */
  function Changed(results: seq<RecognitionResult>, resultIndex: nat): seq<RecognitionResult> {
    if resultIndex <= |results| then results[resultIndex..] else []
  }

  /** The first alternatives of the results whose `isFinal` is `final`, in
      order and concatenated. */
  function Joined(rs: seq<RecognitionResult>, final: bool): (r: string)
    requires Readable(rs)
    ensures |r| <= TextLength(rs)
  {
    if rs == [] then ""
    else
      var last := rs[|rs| - 1];
      Joined(rs[..|rs| - 1], final) + (if last.isFinal == final then last.alternatives[0].transcript else "")
  }

  /** The total length of the first alternatives of `rs`, of either kind. */
  function TextLength(rs: seq<RecognitionResult>): nat
    requires Readable(rs)
  {
    if rs == [] then 0 else TextLength(rs[..|rs| - 1]) + |rs[|rs| - 1].alternatives[0].transcript|
  }

  /** The final and the interim texts together are exactly as long as all
      first alternatives: every result lands in exactly one of them. */
  lemma {:induction false} JoinedSplitsText(rs: seq<RecognitionResult>)
    requires Readable(rs)
    ensures |Joined(rs, true)| + |Joined(rs, false)| == TextLength(rs)
    decreases |rs|
  {
    if rs != [] {
      JoinedSplitsText(rs[..|rs| - 1]);
    }
  }

  /** Joining distributes over concatenation of result lists. */
  lemma {:induction false} JoinedAppend(a: seq<RecognitionResult>, b: seq<RecognitionResult>, final: bool)
    requires Readable(a) && Readable(b)
    ensures Readable(a + b)
    ensures Joined(a + b, final) == Joined(a, final) + Joined(b, final)
    decreases |b|
  {
    if b != [] {
      var b' := b[..|b| - 1];
      assert (a + b)[..|a + b| - 1] == a + b';
      assert (a + b)[|a + b| - 1] == b[|b| - 1];
      JoinedAppend(a, b', final);
    } else {
      assert a + b == a;
    }
  }

  /** A single result contributes its first alternative to exactly one of
      the two texts. */
  lemma JoinedSingle(r: RecognitionResult, final: bool)
    requires |r.alternatives| > 0
    ensures Joined([r], final) == if r.isFinal == final then r.alternatives[0].transcript else ""
  {
    assert [r][..0] == [];
  }

  /** Joining a list result by result, front to back. */
  lemma {:induction false} JoinedCons(r: RecognitionResult, rs: seq<RecognitionResult>, final: bool)
    requires |r.alternatives| > 0 && Readable(rs)
    ensures Readable([r] + rs)
    ensures Joined([r] + rs, final) == (if r.isFinal == final then r.alternatives[0].transcript else "") + Joined(rs, final)
  {
    JoinedAppend([r], rs, final);
    JoinedSingle(r, final);
  }

  /** With no interim result among them, the interim text is empty; with no
      final one, the final text is. */
  lemma {:induction false} JoinedNoneOfKind(rs: seq<RecognitionResult>, final: bool)
    requires Readable(rs)
    requires forall i :: 0 <= i < |rs| ==> rs[i].isFinal != final
    ensures Joined(rs, final) == ""
    decreases |rs|
  {
    if rs != [] {
      JoinedNoneOfKind(rs[..|rs| - 1], final);
    }
  }

  /** The transcript an event stores: the final text when it is not empty,
      otherwise the interim text. */
  function Stored(results: seq<RecognitionResult>, resultIndex: nat): (r: string)
    requires Readable(Changed(results, resultIndex))
    ensures Joined(Changed(results, resultIndex), true) != "" ==> r == Joined(Changed(results, resultIndex), true)
    ensures Joined(Changed(results, resultIndex), true) == "" ==> r == Joined(Changed(results, resultIndex), false)
    ensures r == "" <==> Joined(Changed(results, resultIndex), true) == "" && Joined(Changed(results, resultIndex), false) == ""
  {
    var finalText := Joined(Changed(results, resultIndex), true);
    if finalText != "" then finalText else Joined(Changed(results, resultIndex), false)
  }

  /** Results before `resultIndex` never reach the transcript: two result
      lists that agree from there on store the same transcript. */
  lemma EarlierResultsIgnored(a: seq<RecognitionResult>, b: seq<RecognitionResult>, resultIndex: nat)
    requires |a| == |b| && Readable(Changed(a, resultIndex))
    requires forall i :: resultIndex <= i < |a| ==> a[i] == b[i]
    ensures Changed(a, resultIndex) == Changed(b, resultIndex)
    ensures Stored(a, resultIndex) == Stored(b, resultIndex)
  {
  }

  /** When every changed result is final, the stored transcript is their
      text, whether or not it is empty. */
  lemma AllFinalStoresFinal(results: seq<RecognitionResult>, resultIndex: nat)
    requires Readable(Changed(results, resultIndex))
    requires forall r :: r in Changed(results, resultIndex) ==> r.isFinal
    ensures Stored(results, resultIndex) == Joined(Changed(results, resultIndex), true)
  {
    var c := Changed(results, resultIndex);
    JoinedNoneOfKind(c, false);
  }

  /** The accumulation loop of `onresult`: walk the changed results and
      append each first alternative to the final or the interim text. */
  method CollectTranscripts(results: seq<RecognitionResult>, resultIndex: nat)
    returns (finalTranscript: string, interimTranscript: string)
    requires forall i :: resultIndex <= i < |results| ==> |results[i].alternatives| > 0
    ensures Readable(Changed(results, resultIndex))
    ensures finalTranscript == Joined(Changed(results, resultIndex), true)
    ensures interimTranscript == Joined(Changed(results, resultIndex), false)
  {
    finalTranscript := "";
    interimTranscript := "";
    var i := resultIndex;
    while i < |results|
      invariant resultIndex <= |results| ==> resultIndex <= i <= |results|
      invariant resultIndex > |results| ==> i == resultIndex
      invariant resultIndex <= |results| ==>
        && Readable(results[resultIndex..i])
        && finalTranscript == Joined(results[resultIndex..i], true)
        && interimTranscript == Joined(results[resultIndex..i], false)
      invariant resultIndex > |results| ==> finalTranscript == "" && interimTranscript == ""
    {
      assert results[resultIndex..i + 1][..i - resultIndex] == results[resultIndex..i];
      var result := results[i];
      if result.isFinal {
        finalTranscript := finalTranscript + result.alternatives[0].transcript;
      } else {
        interimTranscript := interimTranscript + result.alternatives[0].transcript;
      }
      i := i + 1;
    }
    if resultIndex <= |results| {
      assert results[resultIndex..i] == Changed(results, resultIndex);
    }
  }

  /** The alert `onerror` raises for an error code, if any. */
  function ErrorAlert(error: string): (r: Option<string>)
    ensures r.None? <==> error == "no-speech"
  {
    if error == "not-allowed" then
      Some("マイクへのアクセスが拒否されました。ブラウザの設定でマイクの使用を許可してください。")
    else if error == "no-speech" then
      None
    else
      Some("音声認識エラー: " + error)
  }

  /** The hook's state: the transcript, the listening flag, and whether a
      recogniser was created (the browser supports the API). */
  class SpeechHook {
    var transcript: string
    var isListening: bool
    var hasRecognizer: bool

    constructor ()
      ensures transcript == "" && !isListening && !hasRecognizer
    {
      transcript := "";
      isListening := false;
      hasRecognizer := false;
    }

    /** The mount effect: a recogniser exists afterwards exactly when the
        browser supports the API. */
    method Mount(isSupported: bool)
      modifies this
      ensures hasRecognizer == (old(hasRecognizer) || isSupported)
      ensures transcript == old(transcript) && isListening == old(isListening)
    {
      if !isSupported {
        return;
      }
      hasRecognizer := true;
    }

    /** `onresult`: store the final text of the changed results, or their
        interim text when the final one is empty. */
    method OnResult(results: seq<RecognitionResult>, resultIndex: nat)
      requires forall i :: resultIndex <= i < |results| ==> |results[i].alternatives| > 0
      modifies this
      ensures Readable(Changed(results, resultIndex))
      ensures transcript == Stored(results, resultIndex)
      ensures isListening == old(isListening) && hasRecognizer == old(hasRecognizer)
    {
      var finalTranscript, interimTranscript := CollectTranscripts(results, resultIndex);
      transcript := if finalTranscript != "" then finalTranscript else interimTranscript;
    }

    /** `onerror`: stop listening; returns the alert shown, if any. */
    method OnError(error: string) returns (alert: Option<string>)
      modifies this
      ensures !isListening
      ensures alert == ErrorAlert(error)
      ensures transcript == old(transcript) && hasRecognizer == old(hasRecognizer)
    {
      isListening := false;
      alert := ErrorAlert(error);
    }

    /** `onend`: the recogniser stopped. */
    method OnEnd()
      modifies this
      ensures !isListening
      ensures transcript == old(transcript) && hasRecognizer == old(hasRecognizer)
    {
      isListening := false;
    }

    /** `startListening`: without a recogniser or while listening nothing
        happens; otherwise the transcript is cleared and listening begins. */
    method StartListening()
      modifies this
      ensures !old(hasRecognizer) || old(isListening) ==>
        transcript == old(transcript) && isListening == old(isListening)
      ensures old(hasRecognizer) && !old(isListening) ==> transcript == "" && isListening
      ensures hasRecognizer == old(hasRecognizer)
    {
      if !hasRecognizer || isListening {
        return;
      }
      transcript := "";
      isListening := true;
    }

    /** `stopListening`: without a recogniser or when not listening nothing
        happens; otherwise listening ends. */
    method StopListening()
      modifies this
      ensures !old(hasRecognizer) || !old(isListening) ==> isListening == old(isListening)
      ensures old(hasRecognizer) ==> !isListening
      ensures transcript == old(transcript) && hasRecognizer == old(hasRecognizer)
    {
      if !hasRecognizer || !isListening {
        return;
      }
      isListening := false;
    }

    /** `resetTranscript`: clear the transcript. */
    method ResetTranscript()
      modifies this
      ensures transcript == ""
      ensures isListening == old(isListening) && hasRecognizer == old(hasRecognizer)
    {
      transcript := "";
    }
  }
}
