/** The conversation state of the chat screen (components/ChatInterface.tsx): sending a
    query, folding the streamed answer into its placeholder, appending dictated speech,
    and the list of cited sources shown under an answer. */
module Chat {
  import opened Wrappers
  import opened Strings
  import opened Types
  import M = InsertionMap

  /** The opening message the conversation starts with. */
  const WELCOME_TEXT: string :=
    "### Legal Research Counsel\n\n**TO:** Advocate\n**FROM:** NyayaAI System\n**SUBJECT:** Legal Research Initialization\n\nI am connected to Indian Statutory and Judicial databases. I can assist with:\n\n*   **Comparative Analysis:** IPC vs. BNS, CrPC vs. BNSS.\n*   **Case Law Retrieval:** Supreme Court & High Court Judgments.\n*   **Procedural Compliance:** Drafting & Limitation Periods.\n\nPlease dictate or type your query."

  /** One piece of the streamed answer: more text and, possibly, citations. */
  datatype StreamChunk = StreamChunk(text: string, groundingChunks: Option<seq<GroundingChunk>>)

  // ---------------------------------------------------------------------------
  // Specification of the streamed answer
  // ---------------------------------------------------------------------------

  /** All chunk texts, in order. */
  function ConcatTexts(stream: seq<StreamChunk>): string {
    if stream == [] then "" else ConcatTexts(stream[..|stream| - 1]) + stream[|stream| - 1].text
  }

  /** The citations gathered so far: absent until a chunk carries a list (an empty list
      counts), then the lists in order. */
  function CollectChunks(stream: seq<StreamChunk>): Option<seq<GroundingChunk>> {
    if stream == [] then None
    else
      var acc := CollectChunks(stream[..|stream| - 1]);
      match stream[|stream| - 1].groundingChunks
      case None => acc
      case Some(gc) => if acc.None? then Some(gc) else Some(acc.value + gc)
  }

  /** The citation lists that chunks carried, joined in order. */
  function AllLists(stream: seq<StreamChunk>): seq<GroundingChunk> {
    if stream == [] then []
    else
      AllLists(stream[..|stream| - 1])
        + (if stream[|stream| - 1].groundingChunks.Some? then stream[|stream| - 1].groundingChunks.value else [])
  }

  /** Text of a prefix of the stream is a prefix of the text: the answer only grows. */
  lemma {:induction false} ConcatTextsAppend(a: seq<StreamChunk>, b: seq<StreamChunk>)
    ensures ConcatTexts(a + b) == ConcatTexts(a) + ConcatTexts(b)
    decreases |b|
  {
    if b == [] {
      assert a + b == a;
    } else {
      assert (a + b)[..|a + b| - 1] == a + b[..|b| - 1];
      ConcatTextsAppend(a, b[..|b| - 1]);
    }
  }

  /** The collected citations are absent exactly when no chunk carried a list; otherwise
      they are all carried lists, in order. */
  lemma {:induction false} CollectChunksMeaning(stream: seq<StreamChunk>)
    ensures CollectChunks(stream).None? <==> forall k :: 0 <= k < |stream| ==> stream[k].groundingChunks.None?
    ensures CollectChunks(stream).Some? ==> CollectChunks(stream).value == AllLists(stream)
  {
    if stream != [] {
      var init := stream[..|stream| - 1];
      CollectChunksMeaning(init);
      assert forall k :: 0 <= k < |init| ==> init[k] == stream[k];
      if CollectChunks(init).None? {
        assert (forall k :: 0 <= k < |init| ==> init[k].groundingChunks.None?);
        AllListsNone(init);
      }
    }
  }

  lemma {:induction false} AllListsNone(stream: seq<StreamChunk>)
    requires forall k :: 0 <= k < |stream| ==> stream[k].groundingChunks.None?
    ensures AllLists(stream) == []
  {
    if stream != [] {
      AllListsNone(stream[..|stream| - 1]);
    }
  }

  /** Every message with id `id` takes the streamed text and citations; the rest are kept. */
  function SetStreamed(msgs: seq<Message>, id: string, text: string, chunks: Option<seq<GroundingChunk>>): (r: seq<Message>)
    ensures |r| == |msgs|
    ensures forall k :: 0 <= k < |msgs| ==>
              r[k] == if msgs[k].id == id then msgs[k].(text := text, groundingChunks := chunks) else msgs[k]
  {
    seq(|msgs|, k requires 0 <= k < |msgs| =>
      if msgs[k].id == id then msgs[k].(text := text, groundingChunks := chunks) else msgs[k])
  }

  /** Every message with id `id` stops streaming; the rest are kept. */
  function SetDone(msgs: seq<Message>, id: string): (r: seq<Message>)
    ensures |r| == |msgs|
    ensures forall k :: 0 <= k < |msgs| ==>
              r[k] == if msgs[k].id == id then msgs[k].(isStreaming := Some(false)) else msgs[k]
  {
    seq(|msgs|, k requires 0 <= k < |msgs| =>
      if msgs[k].id == id then msgs[k].(isStreaming := Some(false)) else msgs[k])
  }

  /** Updating twice with the same id keeps only the second update: each turn of the
      stream loop replaces the placeholder's text and citations outright. */
  lemma SetStreamedTwice(msgs: seq<Message>, id: string, t1: string, c1: Option<seq<GroundingChunk>>,
                         t2: string, c2: Option<seq<GroundingChunk>>)
    ensures SetStreamed(SetStreamed(msgs, id, t1, c1), id, t2, c2) == SetStreamed(msgs, id, t2, c2)
  {
  }

  /** The messages after a whole stream was folded into the placeholder `id`. */
  function Streamed(msgs: seq<Message>, id: string, stream: seq<StreamChunk>): seq<Message> {
    if stream == [] then msgs else SetStreamed(msgs, id, ConcatTexts(stream), CollectChunks(stream))
  }

  /** A final transcript is appended to the input, after a separating space unless the input
      is empty or already ends in one. */
  function AppendTranscript(prev: string, transcript: string): (r: string)
    ensures (prev != [] && prev[|prev| - 1] != ' ') ==> r == prev + " " + transcript
    ensures !(prev != [] && prev[|prev| - 1] != ' ') ==> r == prev + transcript
  {
    prev + (if |prev| > 0 && !EndsWith(prev, " ") then " " else "") + transcript
  }

  /** One speech-recognition result: whether it is final, and its best transcript. */
  datatype SpeechResult = SpeechResult(isFinal: bool, transcript: string)

  /** The input after the final results of `rs`, in order. */
  function Dictated(input: string, rs: seq<SpeechResult>): string {
    if rs == [] then input
    else
      var before := Dictated(input, rs[..|rs| - 1]);
      if rs[|rs| - 1].isFinal then AppendTranscript(before, rs[|rs| - 1].transcript) else before
  }

  /** Dictation only ever extends the input, and a transcript is set off by exactly one
      space unless the input was empty or already ended with a space. */
  lemma {:induction false} DictatedExtends(input: string, rs: seq<SpeechResult>)
    ensures StartsWith(Dictated(input, rs), input)
  {
    if rs != [] {
      DictatedExtends(input, rs[..|rs| - 1]);
      var before := Dictated(input, rs[..|rs| - 1]);
      assert StartsWith(AppendTranscript(before, rs[|rs| - 1].transcript), before);
      assert before[..|input|] == input;
      assert Dictated(input, rs)[..|before|][..|input|] == Dictated(input, rs)[..|input|];
    }
  }

  /** Interim results leave the input alone. */
  lemma {:induction false} InterimResultsIgnored(input: string, rs: seq<SpeechResult>)
    requires forall k :: 0 <= k < |rs| ==> !rs[k].isFinal
    ensures Dictated(input, rs) == input
  {
    if rs != [] {
      InterimResultsIgnored(input, rs[..|rs| - 1]);
    }
  }

  // ---------------------------------------------------------------------------
  // The component state
  // ---------------------------------------------------------------------------

  class ChatInterface {
    var messages: seq<Message>
    var input: string
    var isLoading: bool
    var isListening: bool

    /** The greeting, an empty input, idle. */
    constructor (now: int)
      ensures messages == [Message("welcome", Model, WELCOME_TEXT, now, None, None)]
      ensures input == "" && !isLoading && !isListening
    {
      messages := [Message("welcome", Model, WELCOME_TEXT, now, None, None)];
      input := "";
      isLoading := false;
      isListening := false;
    }

    /** `recognition.onresult`: the final results from `resultIndex` on are appended. */
    method OnResult(results: seq<SpeechResult>, resultIndex: nat)
      requires resultIndex <= |results|
      modifies this
      ensures input == Dictated(old(input), results[resultIndex..])
      ensures messages == old(messages) && isLoading == old(isLoading) && isListening == old(isListening)
    {
      var i := resultIndex;
      ghost var start := input;
      while i < |results|
        invariant resultIndex <= i <= |results|
        invariant input == Dictated(start, results[resultIndex..i])
        invariant messages == old(messages) && isLoading == old(isLoading) && isListening == old(isListening)
      {
        assert results[resultIndex..i + 1][..i - resultIndex] == results[resultIndex..i];
        if results[i].isFinal {
          var transcript := results[i].transcript;
          input := AppendTranscript(input, transcript);
        }
        i := i + 1;
      }
      assert results[resultIndex..i] == results[resultIndex..];
    }

    /** The textarea's `onChange`: the input becomes what was typed. The textarea stays
        enabled while an answer streams. */
    method OnChange(text: string)
      modifies this
      ensures input == text
      ensures messages == old(messages) && isLoading == old(isLoading) && isListening == old(isListening)
    {
      input := text;
    }

    /** The synchronous start of `handleSend`. It does nothing while the trimmed input is
        empty or an answer is loading. Otherwise it stops dictation, appends the query and
        an empty streaming placeholder, clears the input and starts loading. */
    method BeginSend(userId: string, userTime: int, modelId: string, modelTime: int) returns (started: bool)
      modifies this
      ensures started <==> !(AllSpace(old(input)) || old(isLoading))
      ensures !started ==>
                (&& messages == old(messages) && input == old(input)
                 && isLoading == old(isLoading) && isListening == old(isListening))
      ensures started ==>
                (&& messages == old(messages) + [QueryOf(old(input), userId, userTime), Placeholder(modelId, modelTime)]
                 && input == "" && isLoading && !isListening)
    {
      if Trim(input) == "" || isLoading {
        return false;
      }
      if isListening {
        isListening := false;
      }
      var userMessage := QueryOf(input, userId, userTime);
      messages := messages + [userMessage];
      input := "";
      isLoading := true;
      messages := messages + [Placeholder(modelId, modelTime)];
      started := true;
    }

    /** One turn of the `for await` loop: the chunk's text is appended to `fullText`, its
        citations to `chunks`, and the placeholder `modelId` is given both. When `fullText`
        and `chunks` are what the chunks `seen` so far gathered, the new values are what
        `seen` and this chunk gather. Only the message list changes. */
    method Receive(modelId: string, fullText: string, chunks: Option<seq<GroundingChunk>>,
                   chunk: StreamChunk, ghost seen: seq<StreamChunk>)
      returns (text: string, gathered: Option<seq<GroundingChunk>>)
      modifies this
      ensures fullText == ConcatTexts(seen) && chunks == CollectChunks(seen) ==>
                text == ConcatTexts(seen + [chunk]) && gathered == CollectChunks(seen + [chunk])
      ensures messages == SetStreamed(old(messages), modelId, text, gathered)
      ensures input == old(input) && isLoading == old(isLoading) && isListening == old(isListening)
    {
      assert (seen + [chunk])[..|seen|] == seen;
      text := fullText + chunk.text;
      gathered := chunks;
      if chunk.groundingChunks.Some? {
        if gathered.None? {
          gathered := chunk.groundingChunks;
        } else {
          gathered := Some(gathered.value + chunk.groundingChunks.value);
        }
      }
      messages := SetStreamed(messages, modelId, text, gathered);
    }

    /** The `finally` block: loading is over and the placeholder stops streaming. The input
        and dictation are left as they are, so whatever was typed or dictated while the
        answer streamed stays in the input. */
    method FinishSend(modelId: string)
      modifies this
      ensures messages == SetDone(old(messages), modelId) && !isLoading
      ensures input == old(input) && isListening == old(isListening)
    {
      isLoading := false;
      messages := SetDone(messages, modelId);
    }

    /** `handleSend` run to the end with no other event in between: `BeginSend`, the whole
        delivered `stream` folded into the placeholder, then `FinishSend`. A stream that
        fails just ends early: the same final steps run. Clock readings are parameters. */
    method Send(userId: string, userTime: int, modelId: string, modelTime: int, stream: seq<StreamChunk>)
      modifies this
      ensures AllSpace(old(input)) || old(isLoading) ==>
                (&& messages == old(messages) && input == old(input)
                 && isLoading == old(isLoading) && isListening == old(isListening))
      ensures !(AllSpace(old(input)) || old(isLoading)) ==>
                (&& messages == SetDone(Streamed(old(messages) + [QueryOf(old(input), userId, userTime),
                                                               Placeholder(modelId, modelTime)],
                                                 modelId, stream), modelId)
                 && input == "" && !isLoading && !isListening)
    {
      var started := BeginSend(userId, userTime, modelId, modelTime);
      if !started {
        return;
      }
      ReadStream(modelId, stream);
      FinishSend(modelId);
    }

    /** The `for await` loop of `handleSend`: every chunk extends the answer text and the
        citations, and the placeholder `modelId` is given both. */
    method ReadStream(modelId: string, stream: seq<StreamChunk>)
      modifies this
      ensures messages == Streamed(old(messages), modelId, stream)
      ensures input == old(input) && isLoading == old(isLoading) && isListening == old(isListening)
    {
      ghost var base := messages;
      var fullText := "";
      var chunks: Option<seq<GroundingChunk>> := None;
      for i := 0 to |stream|
        invariant fullText == ConcatTexts(stream[..i]) && chunks == CollectChunks(stream[..i])
        invariant messages == Streamed(base, modelId, stream[..i])
        invariant input == old(input) && isLoading == old(isLoading) && isListening == old(isListening)
      {
        assert stream[..i + 1] == stream[..i] + [stream[i]];
        if i > 0 {
          SetStreamedTwice(base, modelId, ConcatTexts(stream[..i]), CollectChunks(stream[..i]),
                           ConcatTexts(stream[..i + 1]), CollectChunks(stream[..i + 1]));
        }
        fullText, chunks := Receive(modelId, fullText, chunks, stream[i], stream[..i]);
      }
      assert stream[..|stream|] == stream;
    }
  }

  /** The query as sent: the input exactly as typed, untrimmed. */
  function QueryOf(input: string, id: string, time: int): (m: Message)
    ensures m.role == User && m.text == input && m.id == id
  {
    Message(id, User, input, time, None, None)
  }

  /** The answer's placeholder: empty and streaming. */
  function Placeholder(id: string, time: int): (m: Message)
    ensures m.role == Model && m.text == "" && m.isStreaming == Some(true) && m.id == id
  {
    Message(id, Model, "", time, Some(true), None)
  }

  /** After a send, the query comes right after the earlier messages, and the placeholder
      after it holds the whole streamed text and all collected citations and is no longer
      streaming; earlier messages with another id are unchanged. */
  lemma SendResult(old_: seq<Message>, input: string, userId: string, userTime: int,
                   modelId: string, modelTime: int, stream: seq<StreamChunk>)
    requires userId != modelId
    ensures var r := SetDone(Streamed(old_ + [QueryOf(input, userId, userTime), Placeholder(modelId, modelTime)],
                                      modelId, stream), modelId);
      && |r| == |old_| + 2
      && r[|old_|] == QueryOf(input, userId, userTime)
      && r[|old_| + 1].id == modelId && r[|old_| + 1].role == Model
      && r[|old_| + 1].text == ConcatTexts(stream)
      && r[|old_| + 1].groundingChunks == CollectChunks(stream)
      && r[|old_| + 1].isStreaming == Some(false)
      && forall k :: 0 <= k < |old_| && old_[k].id != modelId ==> r[k] == old_[k]
  {
    var base := old_ + [QueryOf(input, userId, userTime), Placeholder(modelId, modelTime)];
    assert base[|old_|] == QueryOf(input, userId, userTime);
    assert base[|old_| + 1] == Placeholder(modelId, modelTime);
    assert forall k :: 0 <= k < |old_| ==> base[k] == old_[k];
  }

  // ---------------------------------------------------------------------------
  // Sources shown under an answer
  // ---------------------------------------------------------------------------

  /** The map key of a citation: `c.web?.uri`, absent when there is no `web`. */
  function Key(c: GroundingChunk): Option<string> {
    if c.web.Some? then Some(c.web.value.uri) else None
  }

  /** A JavaScript `Map` from addresses to citations. */
  type Entries = M.Entries<Option<string>, GroundingChunk>

  /** The citations stored in a `Map` keyed by their addresses: a key keeps its first
      position and takes its last citation. */
  function Dedup(cs: seq<GroundingChunk>): Entries {
    if cs == [] then [] else M.Put(Dedup(cs[..|cs| - 1]), Key(cs[|cs| - 1]), cs[|cs| - 1])
  }

  /** The keys in order of first occurrence: a reference definition that does not mention
      the map. */
  function FirstKeys(cs: seq<GroundingChunk>): seq<Option<string>> {
    if cs == [] then []
    else
      var ks := FirstKeys(cs[..|cs| - 1]);
      if Key(cs[|cs| - 1]) in ks then ks else ks + [Key(cs[|cs| - 1])]
  }

  /** The last citation with key `k`. */
  function LastWith(cs: seq<GroundingChunk>, k: Option<string>): (r: Option<GroundingChunk>)
    ensures r.Some? ==> Key(r.value) == k
    ensures r.None? <==> forall j :: 0 <= j < |cs| ==> Key(cs[j]) != k
  {
    if cs == [] then None
    else if Key(cs[|cs| - 1]) == k then Some(cs[|cs| - 1])
    else LastWith(cs[..|cs| - 1], k)
  }

  /** The map holds one entry per distinct key, keyed in order of first occurrence, and
      each entry holds the last citation with its key. */
  lemma {:induction false} DedupEntries(cs: seq<GroundingChunk>)
    ensures M.KeysOf(Dedup(cs)) == FirstKeys(cs)
    ensures forall i :: 0 <= i < |Dedup(cs)| ==> LastWith(cs, Dedup(cs)[i].0) == Some(Dedup(cs)[i].1)
    ensures M.DistinctKeys(Dedup(cs))
  {
    if cs != [] {
      var init, c := cs[..|cs| - 1], cs[|cs| - 1];
      DedupEntries(init);
      M.PutEntries(Dedup(init), Key(c), c);
      var r := Dedup(cs);
      forall i | 0 <= i < |r| ensures LastWith(cs, r[i].0) == Some(r[i].1) {
        if r[i].0 != Key(c) {
          assert i < |Dedup(init)| by {
            assert M.KeysOf(r)[i] == r[i].0;
          }
          assert r[i] == Dedup(init)[i];
        }
      }
    }
  }

  /** The first-occurrence keys are distinct and are exactly the keys that occur. */
  lemma {:induction false} FirstKeysDistinct(cs: seq<GroundingChunk>)
    ensures forall i, j :: 0 <= i < j < |FirstKeys(cs)| ==> FirstKeys(cs)[i] != FirstKeys(cs)[j]
    ensures forall k :: k in FirstKeys(cs) <==> exists j :: 0 <= j < |cs| && Key(cs[j]) == k
  {
    if cs != [] {
      var init := cs[..|cs| - 1];
      FirstKeysDistinct(init);
      assert forall j :: 0 <= j < |init| ==> init[j] == cs[j];
    }
  }

  /** Entries without a web reference or with an empty address are not shown. */
  function Shown(es: Entries): (r: seq<WebRef>)
    ensures forall w :: w in r ==> w.uri != ""
  {
    if es == [] then []
    else
      var w := es[0].1.web;
      (if w.Some? && w.value.uri != "" then [w.value] else []) + Shown(es[1..])
  }

  /** The sources listed under an answer. */
  function Sources(cs: seq<GroundingChunk>): seq<WebRef> {
    Shown(Dedup(cs))
  }

  /** The addresses of a list of sources, in order. */
  function Addresses(ws: seq<WebRef>): (r: seq<string>)
    ensures |r| == |ws| && forall i :: 0 <= i < |ws| ==> r[i] == ws[i].uri
  {
    seq(|ws|, i requires 0 <= i < |ws| => ws[i].uri)
  }

  /** The non-empty addresses among map keys, in key order. */
  function Addressed(ks: seq<Option<string>>): seq<string> {
    if ks == [] then []
    else (if ks[0].Some? && ks[0].value != "" then [ks[0].value] else []) + Addressed(ks[1..])
  }

  /** For entries keyed by their citations' addresses, `Shown` lists the non-empty
      addresses in key order. */
  lemma {:induction false} ShownAddresses(es: Entries)
    requires forall i :: 0 <= i < |es| ==> Key(es[i].1) == es[i].0
    ensures Addresses(Shown(es)) == Addressed(M.KeysOf(es))
  {
    if es != [] {
      var tail := es[1..];
      assert forall i :: 0 <= i < |tail| ==> tail[i] == es[i + 1];
      ShownAddresses(tail);
      assert M.KeysOf(es)[1..] == M.KeysOf(tail);
      var w := es[0].1.web;
      var head := if w.Some? && w.value.uri != "" then [w.value] else [];
      assert Shown(es) == head + Shown(tail);
      assert Addresses(head + Shown(tail)) == Addresses(head) + Addresses(Shown(tail));
    }
  }

  /** No two listed sources share an address; each listed source is the last citation
      with its address; every address that some citation carries and that is not empty
      is listed; and the sources are listed in the order their addresses first occur. */
  lemma SourcesDedup(cs: seq<GroundingChunk>)
    ensures forall i, j :: 0 <= i < j < |Sources(cs)| ==> Sources(cs)[i].uri != Sources(cs)[j].uri
    ensures forall w :: w in Sources(cs) ==> LastWith(cs, Some(w.uri)) == Some(GroundingChunk(Some(w)))
    ensures forall j :: 0 <= j < |cs| && cs[j].web.Some? && cs[j].web.value.uri != "" ==>
              exists w :: w in Sources(cs) && w.uri == cs[j].web.value.uri
    ensures Addresses(Sources(cs)) == Addressed(FirstKeys(cs))
  {
    DedupEntries(cs);
    FirstKeysDistinct(cs);
    var es := Dedup(cs);
    forall i | 0 <= i < |es| ensures Key(es[i].1) == es[i].0 {
      assert LastWith(cs, es[i].0) == Some(es[i].1);
    }
    ShownDistinct(es);
    ShownAddresses(es);
    forall w | w in Sources(cs) ensures LastWith(cs, Some(w.uri)) == Some(GroundingChunk(Some(w))) {
      var i :| 0 <= i < |es| && es[i].1.web == Some(w);
      assert LastWith(cs, es[i].0) == Some(es[i].1);
    }
    forall j | 0 <= j < |cs| && cs[j].web.Some? && cs[j].web.value.uri != ""
      ensures exists w :: w in Sources(cs) && w.uri == cs[j].web.value.uri
    {
      assert Key(cs[j]) in FirstKeys(cs);
      var i :| 0 <= i < |es| && M.KeysOf(es)[i] == Key(cs[j]);
      assert LastWith(cs, es[i].0) == Some(es[i].1);
      assert es[i].1.web.value in Shown(es);
    }
  }

  /** What `Shown` keeps, for entries whose keys are their citations' addresses. */
  lemma {:induction false} ShownDistinct(es: Entries)
    requires forall i :: 0 <= i < |es| ==> Key(es[i].1) == es[i].0
    requires M.DistinctKeys(es)
    ensures forall i, j :: 0 <= i < j < |Shown(es)| ==> Shown(es)[i].uri != Shown(es)[j].uri
    ensures forall w :: w in Shown(es) ==> exists i :: 0 <= i < |es| && es[i].1.web == Some(w)
    ensures forall i :: 0 <= i < |es| && es[i].1.web.Some? && es[i].1.web.value.uri != "" ==>
              es[i].1.web.value in Shown(es)
  {
    if es != [] {
      var tail := es[1..];
      assert forall i :: 0 <= i < |tail| ==> tail[i] == es[i + 1];
      ShownDistinct(tail);
      var w := es[0].1.web;
      if w.Some? && w.value.uri != "" {
        forall v | v in Shown(tail) ensures v.uri != w.value.uri {
          var i :| 0 <= i < |tail| && tail[i].1.web == Some(v);
          assert es[i + 1].0 != es[0].0;
        }
      }
      forall i | 0 <= i < |es| && es[i].1.web.Some? && es[i].1.web.value.uri != ""
        ensures es[i].1.web.value in Shown(es)
      {
        if i > 0 {
          assert tail[i - 1] == es[i];
        }
      }
    }
  }

  /** The label shown for a source: its title when that is non-empty, otherwise the host
      name of its address with the first `www.` removed. `hostname` stands for
      `new URL(uri).hostname` and gives nothing when the address does not parse. */
  function DisplayTitle(w: WebRef, hostname: string -> Option<string>): (r: Option<string>)
    ensures w.title != "" ==> r == Some(w.title)
    ensures w.title == "" ==> (r.Some? <==> hostname(w.uri).Some?)
    ensures w.title == "" && hostname(w.uri).Some? && !Contains(hostname(w.uri).value, "www.") ==>
              r == hostname(w.uri)
  {
    if w.title != "" then Some(w.title)
    else
      match hostname(w.uri)
      case None => None
      case Some(h) => Some(ReplaceFirst(h, "www.", ""))
  }

  /** The title fallback drops exactly the first `www.` of the host name. */
  lemma TitleFallbackDropsWww(w: WebRef, hostname: string -> Option<string>, h: string)
    requires w.title == "" && hostname(w.uri) == Some("www." + h)
    ensures DisplayTitle(w, hostname) == Some(h)
  {
    assert ("www." + h)[..4] == "www.";
    assert OccursAt("www." + h, "www.", 0);
    assert ("www." + h)[4..] == h;
    assert ReplaceFirst("www." + h, "www.", "") == h;
  }

  /** An official government record: the address contains `.gov.in` or `.nic.in`. */
  predicate IsGov(uri: string) {
    Contains(uri, ".gov.in") || Contains(uri, ".nic.in")
  }

  /** A judgment from Indian Kanoon. */
  predicate IsKanoon(uri: string) {
    Contains(uri, "indiankanoon.org")
  }

  /** The tests look for the markers anywhere in the address, not only at the end of the
      host name: whatever surrounds `.gov.in`, `.nic.in` or `indiankanoon.org`, the address
      is badged. */
  lemma BadgesMatchAnywhere(a: string, b: string)
    ensures IsGov(a + ".gov.in" + b) && IsGov(a + ".nic.in" + b)
    ensures IsKanoon(a + "indiankanoon.org" + b)
  {
    assert OccursAt(a + ".gov.in" + b, ".gov.in", |a|) by {
      assert (a + ".gov.in" + b)[|a|..|a| + 7] == ".gov.in";
    }
    assert OccursAt(a + ".nic.in" + b, ".nic.in", |a|) by {
      assert (a + ".nic.in" + b)[|a|..|a| + 7] == ".nic.in";
    }
    assert OccursAt(a + "indiankanoon.org" + b, "indiankanoon.org", |a|) by {
      assert (a + "indiankanoon.org" + b)[|a|..|a| + 16] == "indiankanoon.org";
    }
  }
}
