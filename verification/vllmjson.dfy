/**
 The field rules of `vllm_format` on a decoded response: which fields go, which are renamed, and that a
 response is changed exactly when it was not already in the normal form.
 */
module VllmJson {
  import opened Wrappers
  import PostProcess

  // The names the rules mention, and all others.
  datatype Name =
    | Choices | Usage | PromptTokensDetails | MultimodalTokens | CreatedCacheTokens | CacheWriteTokens
    | Delta | Message | Reasoning | ReasoningContent | StopReason
    | PromptLogprobs | PromptTokenIds | PromptText | Metrics | Logprobs | TokenIds | RoutedExperts
    | Refusal | Annotations | Audio | FunctionCall
    | ServiceTier | SystemFingerprint | KvTransferParams | EcTransferParams
    | Other(name: string)

  type Fields = map<Name, Json>

  // A JSON null is a value; an absent field is not in the map.
  datatype Json = Null | Atom(text: string) | Arr(items: seq<Json>) | Obj(fields: Fields)
  {
    predicate Table() {
      Arr? || Obj?
    }
  }

  const TOP_NULL := [PromptLogprobs, PromptTokenIds, PromptText, Metrics, Logprobs, TokenIds]
  const CHOICE_NULL := [Logprobs, TokenIds, RoutedExperts, PromptTokenIds, PromptText]
  const MESSAGE_NULL := [Refusal, Annotations, Audio, FunctionCall]
  const TOP_DROP := [ServiceTier, SystemFingerprint, KvTransferParams, EcTransferParams]

  function DropNull(m: Fields, names: seq<Name>): Fields {
    map k | k in m && !(k in names && m[k] == Null) :: m[k]
  }

  function Without(m: Fields, names: seq<Name>): Fields {
    map k | k in m && k !in names :: m[k]
  }

  function Rename(m: Fields): Fields {
    if Reasoning in m then (m - {Reasoning})[ReasoningContent := m[Reasoning]] else m
  }

  function InMessage(m: Fields): Fields {
    DropNull(Rename(m), MESSAGE_NULL)
  }

  function InDetails(m: Fields): Fields {
    var d := DropNull(m, [MultimodalTokens]);
    if CreatedCacheTokens !in d then d
    else (if CacheWriteTokens in d then d else d[CacheWriteTokens := d[CreatedCacheTokens]]) - {CreatedCacheTokens}
  }

  // A rule applied to the object in a field, when there is one.
  function Within(m: Fields, at: Name, f: Fields -> Fields): Fields {
    if at in m && m[at].Obj? then m[at := Obj(f(m[at].fields))] else m
  }

  function InUsage(m: Fields): Fields {
    Within(m, PromptTokensDetails, InDetails)
  }

  function InChoice(m: Fields): Fields {
    Within(Within(Rename(DropNull(m, CHOICE_NULL)), Delta, Rename), Message, InMessage) - {StopReason}
  }

  function InItem(j: Json): Json {
    if j.Obj? then Obj(InChoice(j.fields)) else j
  }

  function InItems(js: seq<Json>): seq<Json> {
    seq(|js|, i requires 0 <= i < |js| => InItem(js[i]))
  }

  function InTop(m: Fields): Fields
    requires Choices in m
  {
    var d := Within(Without(DropNull(m, TOP_NULL), TOP_DROP), Usage, InUsage);
    if d[Choices].Arr? then d[Choices := Arr(InItems(d[Choices].items))] else d
  }

  /** Only an object with a table of choices is touched. */
  function Normalized(j: Json): Json {
    if j.Obj? && Choices in j.fields && j.fields[Choices].Table() then Obj(InTop(j.fields)) else j
  }

  // ── The normal form ──

  predicate NoNull(m: Fields, names: seq<Name>) {
    forall k :: k in m && k in names ==> m[k] != Null
  }

  predicate CleanDetails(m: Fields) {
    NoNull(m, [MultimodalTokens]) && CreatedCacheTokens !in m
  }

  predicate CleanChoice(m: Fields) {
    && NoNull(m, CHOICE_NULL) && Reasoning !in m && StopReason !in m
    && (Delta in m && m[Delta].Obj? ==> Reasoning !in m[Delta].fields)
    && (Message in m && m[Message].Obj? ==> Reasoning !in m[Message].fields && NoNull(m[Message].fields, MESSAGE_NULL))
  }

  predicate CleanTop(m: Fields) {
    && NoNull(m, TOP_NULL) && (forall k :: k in m ==> k !in TOP_DROP)
    && (Usage in m && m[Usage].Obj? && PromptTokensDetails in m[Usage].fields && m[Usage].fields[PromptTokensDetails].Obj? ==>
          CleanDetails(m[Usage].fields[PromptTokensDetails].fields))
    && (Choices in m && m[Choices].Arr? ==>
          forall i :: 0 <= i < |m[Choices].items| && m[Choices].items[i].Obj? ==> CleanChoice(m[Choices].items[i].fields))
  }

  predicate Clean(j: Json) {
    j.Obj? && Choices in j.fields && j.fields[Choices].Table() ==> CleanTop(j.fields)
  }

  lemma DropNullFacts(m: Fields, names: seq<Name>)
    ensures NoNull(DropNull(m, names), names)
    ensures DropNull(m, names) == m <==> NoNull(m, names)
  {
    if DropNull(m, names) == m {
      forall k | k in m && k in names
        ensures m[k] != Null
      {
        assert k in DropNull(m, names);
      }
    }
  }

  lemma RenameFacts(m: Fields)
    ensures Reasoning !in Rename(m)
    ensures Rename(m) == m <==> Reasoning !in m
  {
  }

  lemma MessageFacts(m: Fields)
    ensures Reasoning !in InMessage(m) && NoNull(InMessage(m), MESSAGE_NULL)
    ensures InMessage(m) == m <==> Reasoning !in m && NoNull(m, MESSAGE_NULL)
  {
    RenameFacts(m);
    DropNullFacts(Rename(m), MESSAGE_NULL);
    if InMessage(m) == m {
      assert Reasoning !in m;
    }
  }

  lemma DetailsFacts(m: Fields)
    ensures CleanDetails(InDetails(m))
    ensures InDetails(m) == m <==> CleanDetails(m)
  {
    DropNullFacts(m, [MultimodalTokens]);
    if InDetails(m) == m {
      assert CreatedCacheTokens !in m;
    }
  }

  lemma ChoiceFacts(m: Fields)
    ensures CleanChoice(InChoice(m))
    ensures InChoice(m) == m <==> CleanChoice(m)
  {
    var a := DropNull(m, CHOICE_NULL);
    DropNullFacts(m, CHOICE_NULL);
    var b := Rename(a);
    RenameFacts(a);
    if Delta in b && b[Delta].Obj? {
      RenameFacts(b[Delta].fields);
    }
    var c := Within(b, Delta, Rename);
    if Message in c && c[Message].Obj? {
      MessageFacts(c[Message].fields);
    }
    var d := Within(c, Message, InMessage);
    assert NoNull(d - {StopReason}, CHOICE_NULL);
    if InChoice(m) == m {
      assert StopReason !in m && Reasoning !in m;
      assert CleanChoice(m);
    }
    if CleanChoice(m) {
      assert a == m && b == m && c == m && d == m;
    }
  }

  lemma ItemsFacts(js: seq<Json>)
    ensures forall i :: 0 <= i < |js| && InItems(js)[i].Obj? ==> CleanChoice(InItems(js)[i].fields)
    ensures InItems(js) == js <==> forall i :: 0 <= i < |js| && js[i].Obj? ==> CleanChoice(js[i].fields)
  {
    forall i | 0 <= i < |js| && js[i].Obj?
      ensures CleanChoice(InItems(js)[i].fields) && (InItem(js[i]) == js[i] <==> CleanChoice(js[i].fields))
    {
      ChoiceFacts(js[i].fields);
    }
    if InItems(js) == js {
      forall i | 0 <= i < |js| && js[i].Obj?
        ensures CleanChoice(js[i].fields)
      {
        assert InItems(js)[i] == js[i];
      }
    }
  }

  lemma UsageFacts(m: Fields)
    ensures PromptTokensDetails in InUsage(m) && InUsage(m)[PromptTokensDetails].Obj? ==>
      CleanDetails(InUsage(m)[PromptTokensDetails].fields)
    ensures InUsage(m) == m
       <==> (PromptTokensDetails in m && m[PromptTokensDetails].Obj? ==> CleanDetails(m[PromptTokensDetails].fields))
  {
    if PromptTokensDetails in m && m[PromptTokensDetails].Obj? {
      DetailsFacts(m[PromptTokensDetails].fields);
    }
  }

  lemma WithoutFacts(m: Fields, names: seq<Name>)
    ensures Without(m, names) == m <==> forall k :: k in m ==> k !in names
  {
    if Without(m, names) == m {
      forall k | k in m
        ensures k !in names
      {
        assert k in Without(m, names);
      }
    }
  }

  lemma TopFacts(m: Fields)
    requires Choices in m
    ensures CleanTop(InTop(m))
    ensures InTop(m) == m <==> CleanTop(m)
  {
    var a := DropNull(m, TOP_NULL);
    DropNullFacts(m, TOP_NULL);
    var b := Without(a, TOP_DROP);
    WithoutFacts(a, TOP_DROP);
    if Usage in b && b[Usage].Obj? {
      UsageFacts(b[Usage].fields);
    }
    var c := Within(b, Usage, InUsage);
    if c[Choices].Arr? {
      ItemsFacts(c[Choices].items);
    }
    if InTop(m) == m {
      assert b == m by {
        assert forall k :: k in m ==> k in b;
      }
      assert c == m;
    }
    if CleanTop(m) {
      assert a == m && b == m && c == m;
    }
  }

  /** The rules change a response exactly when it is not in the normal form, and leave it in it. */
  lemma ChangesExactlyUnclean(j: Json)
    ensures Clean(Normalized(j))
    ensures Normalized(j) == j <==> Clean(j)
  {
    if j.Obj? && Choices in j.fields && j.fields[Choices].Table() {
      TopFacts(j.fields);
    }
  }

  /** Normalising twice is normalising once. */
  lemma NormalizedOnce(j: Json)
    ensures Normalized(Normalized(j)) == Normalized(j)
  {
    ChangesExactlyUnclean(j);
    ChangesExactlyUnclean(Normalized(j));
  }

  // ── What survives ──

  function Get(m: Fields, at: Name): Option<Json> {
    if at in m then Some(m[at]) else None
  }

  function UnlessNull(v: Option<Json>): Option<Json> {
    if v == Some(Null) then None else v
  }

  function OrElse(v: Option<Json>, other: Option<Json>): Option<Json> {
    if v.Some? then v else other
  }

  // Where the field holds an object, `r` holds one that `kept` relates to it; any other value stays.
  ghost predicate Inside(m: Fields, r: Fields, at: Name, kept: (Fields, Fields) -> bool) {
    if at in m && m[at].Obj? then at in r && r[at].Obj? && kept(m[at].fields, r[at].fields) else Get(r, at) == Get(m, at)
  }

  // The reasoning text is under the new name, whichever of the two names it had; other fields stay.
  ghost predicate ReasoningKept(m: Fields, r: Fields) {
    && Get(r, Reasoning) == None
    && Get(r, ReasoningContent) == OrElse(Get(m, Reasoning), Get(m, ReasoningContent))
  }

  ghost predicate DeltaKept(m: Fields, r: Fields) {
    ReasoningKept(m, r) && forall k :: k !in {Reasoning, ReasoningContent} ==> Get(r, k) == Get(m, k)
  }

  ghost predicate MessageKept(m: Fields, r: Fields) {
    && ReasoningKept(m, r)
    && forall k :: k !in {Reasoning, ReasoningContent} ==>
         Get(r, k) == if k in MESSAGE_NULL then UnlessNull(Get(m, k)) else Get(m, k)
  }

  ghost predicate ChoiceKept(m: Fields, r: Fields) {
    && ReasoningKept(m, r) && Get(r, StopReason) == None
    && Inside(m, r, Delta, DeltaKept) && Inside(m, r, Message, MessageKept)
    && forall k :: k !in {Reasoning, ReasoningContent, StopReason, Delta, Message} ==>
         Get(r, k) == if k in CHOICE_NULL then UnlessNull(Get(m, k)) else Get(m, k)
  }

  ghost predicate DetailsKept(m: Fields, r: Fields) {
    && Get(r, CreatedCacheTokens) == None
    && Get(r, CacheWriteTokens) == OrElse(Get(m, CacheWriteTokens), Get(m, CreatedCacheTokens))
    && forall k :: k !in {CreatedCacheTokens, CacheWriteTokens} ==>
         Get(r, k) == if k == MultimodalTokens then UnlessNull(Get(m, k)) else Get(m, k)
  }

  ghost predicate UsageKept(m: Fields, r: Fields) {
    Inside(m, r, PromptTokensDetails, DetailsKept) && forall k :: k != PromptTokensDetails ==> Get(r, k) == Get(m, k)
  }

  // The choices keep their number and order.
  ghost predicate ItemsKept(js: seq<Json>, rs: seq<Json>) {
    |rs| == |js| && forall i :: 0 <= i < |js| ==>
      if js[i].Obj? then rs[i].Obj? && ChoiceKept(js[i].fields, rs[i].fields) else rs[i] == js[i]
  }

  ghost predicate TopKept(m: Fields, r: Fields)
    requires Choices in m
  {
    && Choices in r && (if m[Choices].Arr? then r[Choices].Arr? && ItemsKept(m[Choices].items, r[Choices].items)
                        else r[Choices] == m[Choices])
    && Inside(m, r, Usage, UsageKept)
    && forall k :: k !in {Choices, Usage} ==>
         Get(r, k) == if k in TOP_DROP then None else if k in TOP_NULL then UnlessNull(Get(m, k)) else Get(m, k)
  }

  // Of a response without a table of choices, everything; else, field by field, what the rules leave.
  ghost predicate Kept(j: Json, r: Json) {
    if j.Obj? && Choices in j.fields && j.fields[Choices].Table() then r.Obj? && TopKept(j.fields, r.fields)
    else r == j
  }

  lemma MessageIsKept(m: Fields)
    ensures DeltaKept(m, Rename(m)) && MessageKept(m, InMessage(m))
  {
  }

  lemma DetailsAreKept(m: Fields)
    ensures DetailsKept(m, InDetails(m))
  {
  }

  lemma WithinGets(m: Fields, at: Name, f: Fields -> Fields, k: Name)
    ensures Get(Within(m, at, f), k) == if k == at && at in m && m[at].Obj? then Some(Obj(f(m[at].fields))) else Get(m, k)
  {
  }

  lemma DropNullGets(m: Fields, names: seq<Name>, k: Name)
    ensures Get(DropNull(m, names), k) == if k in names then UnlessNull(Get(m, k)) else Get(m, k)
  {
  }

  lemma RenameGets(m: Fields, k: Name)
    ensures ReasoningKept(m, Rename(m))
    ensures k !in {Reasoning, ReasoningContent} ==> Get(Rename(m), k) == Get(m, k)
  {
  }

  lemma ChoiceGets(m: Fields, k: Name)
    ensures Get(InChoice(m), k) ==
      if k == StopReason then None
      else if (k == Delta || k == Message) && k in m && m[k].Obj? then
        Some(Obj(if k == Delta then Rename(m[k].fields) else InMessage(m[k].fields)))
      else Get(Rename(DropNull(m, CHOICE_NULL)), k)
  {
    var a := DropNull(m, CHOICE_NULL);
    var b := Rename(a);
    var c := Within(b, Delta, Rename);
    DropNullGets(m, CHOICE_NULL, k);
    RenameGets(a, k);
    WithinGets(b, Delta, Rename, k);
    WithinGets(c, Message, InMessage, k);
    var d := Within(c, Message, InMessage);
    hide InMessage, Within, Rename, DropNull;
    assert Get(d - {StopReason}, k) == if k == StopReason then None else Get(d, k);
  }

  lemma ChoiceKeepsField(m: Fields, k: Name)
    ensures k !in {Reasoning, ReasoningContent, StopReason, Delta, Message} ==>
      Get(InChoice(m), k) == if k in CHOICE_NULL then UnlessNull(Get(m, k)) else Get(m, k)
    ensures k in {Delta, Message} && !(k in m && m[k].Obj?) ==> Get(InChoice(m), k) == Get(m, k)
  {
    hide InChoice, InMessage, Rename, DropNull;
    ChoiceGets(m, k);
    RenameGets(DropNull(m, CHOICE_NULL), k);
    DropNullGets(m, CHOICE_NULL, k);
  }

  lemma ChoiceKeepsReasoning(m: Fields)
    ensures ReasoningKept(m, InChoice(m)) && Get(InChoice(m), StopReason) == None
  {
    hide InChoice, InMessage, Rename, DropNull;
    ChoiceGets(m, Reasoning);
    ChoiceGets(m, ReasoningContent);
    ChoiceGets(m, StopReason);
    RenameGets(DropNull(m, CHOICE_NULL), Reasoning);
    DropNullGets(m, CHOICE_NULL, Reasoning);
    DropNullGets(m, CHOICE_NULL, ReasoningContent);
  }

  lemma ChoiceIsKept(m: Fields)
    ensures ChoiceKept(m, InChoice(m))
  {
    ChoiceKeepsReasoning(m);
    ChoiceGets(m, Delta);
    ChoiceGets(m, Message);
    forall k {
      ChoiceKeepsField(m, k);
    }
    hide DeltaKept, MessageKept, InMessage, InChoice, Rename;
    if Delta in m && m[Delta].Obj? {
      MessageIsKept(m[Delta].fields);
    }
    if Message in m && m[Message].Obj? {
      MessageIsKept(m[Message].fields);
    }
  }

  lemma UsageIsKept(m: Fields)
    ensures UsageKept(m, InUsage(m))
  {
    if PromptTokensDetails in m && m[PromptTokensDetails].Obj? {
      DetailsAreKept(m[PromptTokensDetails].fields);
    }
  }

  lemma TopGets(m: Fields, k: Name)
    requires Choices in m
    ensures k != Choices && !(k == Usage && k in m && m[k].Obj?) ==>
      Get(InTop(m), k) == if k in TOP_DROP then None else if k in TOP_NULL then UnlessNull(Get(m, k)) else Get(m, k)
    ensures Usage in m && m[Usage].Obj? ==> Get(InTop(m), Usage) == Some(Obj(InUsage(m[Usage].fields)))
    ensures Get(InTop(m), Choices) == Some(if m[Choices].Arr? then Arr(InItems(m[Choices].items)) else m[Choices])
  {
    hide InUsage, InItems;
    var a := DropNull(m, TOP_NULL);
    var b := Without(a, TOP_DROP);
    DropNullGets(m, TOP_NULL, k);
    DropNullGets(m, TOP_NULL, Usage);
    DropNullGets(m, TOP_NULL, Choices);
    hide DropNull;
    assert Get(b, k) == if k in TOP_DROP then None else Get(a, k);
    assert Get(b, Usage) == Get(m, Usage) && Get(b, Choices) == Get(m, Choices);
    hide Without;
    WithinGets(b, Usage, InUsage, k);
    WithinGets(b, Usage, InUsage, Usage);
    WithinGets(b, Usage, InUsage, Choices);
    hide Within;
  }

  lemma ItemsAreKept(js: seq<Json>)
    ensures ItemsKept(js, InItems(js))
  {
    hide ChoiceKept, InChoice;
    forall i | 0 <= i < |js| && js[i].Obj?
      ensures ChoiceKept(js[i].fields, InChoice(js[i].fields))
    {
      ChoiceIsKept(js[i].fields);
    }
  }

  /** Nothing but what the rules name is lost, and what they rename is there under its new name. */
  lemma NormalizedKeeps(j: Json)
    ensures Kept(j, Normalized(j))
  {
    hide InTop, InUsage, InItems, UsageKept, ItemsKept;
    if j.Obj? && Choices in j.fields && j.fields[Choices].Table() {
      var m := j.fields;
      forall k {
        TopGets(m, k);
      }
      if Usage in m && m[Usage].Obj? {
        UsageIsKept(m[Usage].fields);
      }
      if m[Choices].Arr? {
        ItemsAreKept(m[Choices].items);
      }
    }
  }

  lemma SameFields(a: Fields, b: Fields)
    requires forall k :: Get(a, k) == Get(b, k)
    ensures a == b
  {
    forall k
      ensures k in a <==> k in b
      ensures k in a ==> a[k] == b[k]
    {
      assert Get(a, k) == Get(b, k);
    }
  }

  // Two results that keep the same of a field's object are the same there.
  lemma SameInside(m: Fields, a: Fields, b: Fields, at: Name, kept: (Fields, Fields) -> bool)
    requires Inside(m, a, at, kept) && Inside(m, b, at, kept)
    requires forall x, y, z :: kept(x, y) && kept(x, z) ==> y == z
    ensures Get(a, at) == Get(b, at)
  {
  }

  lemma SameDelta(m: Fields, a: Fields, b: Fields)
    requires DeltaKept(m, a) && DeltaKept(m, b)
    ensures a == b
  {
    SameFields(a, b);
  }

  lemma SameMessage(m: Fields, a: Fields, b: Fields)
    requires MessageKept(m, a) && MessageKept(m, b)
    ensures a == b
  {
    SameFields(a, b);
  }

  lemma SameDetails(m: Fields, a: Fields, b: Fields)
    requires DetailsKept(m, a) && DetailsKept(m, b)
    ensures a == b
  {
    SameFields(a, b);
  }

  lemma SameChoice(m: Fields, a: Fields, b: Fields)
    requires ChoiceKept(m, a) && ChoiceKept(m, b)
    ensures a == b
  {
    forall x, y, z | DeltaKept(x, y) && DeltaKept(x, z) {
      SameDelta(x, y, z);
    }
    forall x, y, z | MessageKept(x, y) && MessageKept(x, z) {
      SameMessage(x, y, z);
    }
    SameInside(m, a, b, Delta, DeltaKept);
    SameInside(m, a, b, Message, MessageKept);
    SameFields(a, b);
  }

  lemma SameUsage(m: Fields, a: Fields, b: Fields)
    requires UsageKept(m, a) && UsageKept(m, b)
    ensures a == b
  {
    forall x, y, z | DetailsKept(x, y) && DetailsKept(x, z) {
      SameDetails(x, y, z);
    }
    SameInside(m, a, b, PromptTokensDetails, DetailsKept);
    SameFields(a, b);
  }

  lemma SameItems(js: seq<Json>, a: seq<Json>, b: seq<Json>)
    requires ItemsKept(js, a) && ItemsKept(js, b)
    ensures a == b
  {
    forall i | 0 <= i < |js|
      ensures a[i] == b[i]
    {
      if js[i].Obj? {
        SameChoice(js[i].fields, a[i].fields, b[i].fields);
      }
    }
  }

  lemma SameTop(m: Fields, a: Fields, b: Fields)
    requires Choices in m && TopKept(m, a) && TopKept(m, b)
    ensures a == b
  {
    forall x, y, z | UsageKept(x, y) && UsageKept(x, z) {
      SameUsage(x, y, z);
    }
    SameInside(m, a, b, Usage, UsageKept);
    if m[Choices].Arr? {
      SameItems(m[Choices].items, a[Choices].items, b[Choices].items);
    }
    SameFields(a, b);
  }

  /** What survives is all there is: one result keeps it, and that is what the rules make. */
  lemma KeptExactly(j: Json, r: Json)
    ensures Kept(j, r) <==> r == Normalized(j)
  {
    NormalizedKeeps(j);
    if Kept(j, r) && j.Obj? && Choices in j.fields && j.fields[Choices].Table() {
      SameTop(j.fields, r.fields, Normalized(j).fields);
    }
  }

  // ── The edits as the handler makes them, each telling whether it changed anything ──

  method DropNullFields(m: Fields, names: seq<Name>) returns (r: Fields, changed: bool)
    ensures r == DropNull(m, names) && changed == (r != m)
  {
    r, changed := m, false;
    for i := 0 to |names|
      invariant r == DropNull(m, names[..i]) && changed == (r != m)
    {
      assert names[..i + 1] == names[..i] + [names[i]];
      if names[i] in r && r[names[i]] == Null {
        assert names[i] in m && names[i] !in DropNull(m, names[..i + 1]);
        r, changed := r - {names[i]}, true;
      }
      assert r == DropNull(m, names[..i + 1]);
    }
    assert names[..|names|] == names;
  }

  method RenameReasoning(m: Fields) returns (r: Fields, changed: bool)
    ensures r == Rename(m) && changed == (r != m)
  {
    RenameFacts(m);
    if Reasoning !in m {
      return m, false;
    }
    r := m - {Reasoning};
    r, changed := r[ReasoningContent := m[Reasoning]], true;
  }

  method NormalizeMessage(m: Fields) returns (r: Fields, changed: bool)
    ensures r == InMessage(m) && changed == (r != m)
  {
    MessageFacts(m);
    RenameFacts(m);
    DropNullFacts(Rename(m), MESSAGE_NULL);
    var renamed, dropped;
    r, renamed := RenameReasoning(m);
    r, dropped := DropNullFields(r, MESSAGE_NULL);
    changed := renamed || dropped;
  }

  method NormalizeDetails(m: Fields) returns (r: Fields, changed: bool)
    ensures r == InDetails(m) && changed == (r != m)
  {
    DetailsFacts(m);
    DropNullFacts(m, [MultimodalTokens]);
    r, changed := DropNullFields(m, [MultimodalTokens]);
    if CreatedCacheTokens in r {
      if CacheWriteTokens !in r {
        r := r[CacheWriteTokens := r[CreatedCacheTokens]];
      }
      r := r - {CreatedCacheTokens};
      changed := true;
    }
  }

  method NormalizeChoice(m: Fields) returns (r: Fields, changed: bool)
    ensures r == InChoice(m) && changed == (r != m)
  {
    ChoiceFacts(m);
    var c: bool;
    r, changed := DropNullFields(m, CHOICE_NULL);
    DropNullFacts(m, CHOICE_NULL);
    r, c := RenameReasoning(r);
    changed := changed || c;
    RenameFacts(DropNull(m, CHOICE_NULL));
    if Delta in r && r[Delta].Obj? {
      var delta: Fields;
      RenameFacts(r[Delta].fields);
      delta, c := RenameReasoning(r[Delta].fields);
      r, changed := r[Delta := Obj(delta)], changed || c;
    }
    if Message in r && r[Message].Obj? {
      var message: Fields;
      MessageFacts(r[Message].fields);
      message, c := NormalizeMessage(r[Message].fields);
      r, changed := r[Message := Obj(message)], changed || c;
    }
    if StopReason in r {
      r, changed := r - {StopReason}, true;
    }
  }

  method NormalizeItems(js: seq<Json>) returns (r: seq<Json>, changed: bool)
    ensures r == InItems(js) && changed == (r != js)
  {
    r, changed := [], false;
    for i := 0 to |js|
      invariant |r| == i && forall k :: 0 <= k < i ==> r[k] == InItem(js[k])
      invariant changed == (r != js[..i])
    {
      assert js[..i + 1] == js[..i] + [js[i]];
      var item := js[i];
      if item.Obj? {
        var choice, c := NormalizeChoice(item.fields);
        item, changed := Obj(choice), changed || c;
      }
      r := r + [item];
    }
    assert js[..|js|] == js && r == InItems(js);
  }

  method NormalizeUsage(m: Fields) returns (r: Fields, changed: bool)
    ensures r == Within(m, Usage, InUsage) && changed == (r != m)
  {
    r, changed := m, false;
    if Usage in m && m[Usage].Obj? {
      var usage := m[Usage].fields;
      if PromptTokensDetails in usage && usage[PromptTokensDetails].Obj? {
        var details;
        details, changed := NormalizeDetails(usage[PromptTokensDetails].fields);
        usage := usage[PromptTokensDetails := Obj(details)];
        assert usage[PromptTokensDetails] == Obj(details);
      }
      r := m[Usage := Obj(usage)];
      assert r[Usage] == Obj(usage) && changed == (usage != m[Usage].fields);
    }
  }

  /** `vllm_normalize`: the response in normal form, what survives of it, and whether that changed anything. */
  method Normalize(j: Json) returns (r: Json, changed: bool)
    ensures r == Normalized(j) && changed == (r != j)
    ensures Kept(j, r)
  {
    NormalizedKeeps(j);
    hide Kept;
    if !(j.Obj? && Choices in j.fields && j.fields[Choices].Table()) {
      return j, false;
    }
    var m := j.fields;
    TopFacts(m);
    DropNullFacts(m, TOP_NULL);
    WithoutFacts(DropNull(m, TOP_NULL), TOP_DROP);
    var c: bool;
    m, changed := DropNullFields(m, TOP_NULL);
    m, c := DropFields(m, TOP_DROP);
    changed := changed || c;
    m, c := NormalizeUsage(m);
    changed := changed || c;
    if m[Choices].Arr? {
      var items;
      items, c := NormalizeItems(m[Choices].items);
      m, changed := m[Choices := Arr(items)], changed || c;
    }
    r := Obj(m);
    ChangesExactlyUnclean(j);
  }

  method DropFields(m: Fields, names: seq<Name>) returns (r: Fields, changed: bool)
    ensures r == Without(m, names) && changed == (r != m)
  {
    r, changed := m, false;
    for i := 0 to |names|
      invariant r == Without(m, names[..i]) && changed == (r != m)
    {
      assert names[..i + 1] == names[..i] + [names[i]];
      if names[i] in r {
        assert names[i] in m && names[i] !in Without(m, names[..i + 1]);
        r, changed := r - {names[i]}, true;
      }
      assert r == Without(m, names[..i + 1]);
    }
    assert names[..|names|] == names;
  }

  // ── On text ──

  /** `vllm_rewrite_json`: text that does not decode, or needs no change, or does not encode, stays. */
  function RewriteJson(payload: string, decode: string -> Option<Json>, encode: Json -> Option<string>): string {
    var j := decode(payload);
    if j.None? || Normalized(j.value) == j.value then payload
    else
      var out := encode(Normalized(j.value));
      if out.Some? then out.value else payload
  }

  /** Rewriting rewritten text leaves it as it is, provided decoding undoes encoding. */
  lemma RewrittenOnce(payload: string, decode: string -> Option<Json>, encode: Json -> Option<string>)
    requires forall j :: encode(j).Some? ==> decode(encode(j).value) == Some(j)
    ensures var once := RewriteJson(payload, decode, encode); RewriteJson(once, decode, encode) == once
  {
    var j := decode(payload);
    if j.Some? {
      NormalizedOnce(j.value);
    }
  }

  /**
   So an event stream that has been through `vllm_format` goes through it again unchanged, provided the
   encoder writes trimmed text on one line.
   */
  lemma StreamNormalizedOnce(s: string, decode: string -> Option<Json>, encode: Json -> Option<string>)
    requires forall j :: encode(j).Some? ==> decode(encode(j).value) == Some(j)
    requires forall j :: encode(j).Some? ==> PostProcess.Trimmed(encode(j).value) && '\n' !in encode(j).value
    ensures var f := PostProcess.LineRewrite(p => RewriteJson(p, decode, encode));
      PostProcess.RewriteWhole(PostProcess.RewriteWhole(s, f), f) == PostProcess.RewriteWhole(s, f)
  {
    var rewriteJson := p => RewriteJson(p, decode, encode);
    forall p
      ensures PostProcess.OneLine(rewriteJson, p) && PostProcess.Settles(rewriteJson, p)
    {
      RewrittenOnce(p, decode, encode);
    }
    PostProcess.StreamRewrittenOnce(s, rewriteJson);
  }
}
