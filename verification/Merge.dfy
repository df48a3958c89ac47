/** The layered configuration: aliases, endpoint changes, and where credentials may come from. */
module Merge {
  import opened Base
  import opened History

  // ---- Provider profiles -----------------------------------------------------------------------

  datatype Profile = LmStudio | LmStudioChatCompletions | OpenAiResponses | OpenAiCompatible

  datatype MetadataMode = NativeRequired | CompatibleOnly

  datatype ApiMode = Responses | ChatCompletions

  function Metadata(profile: Profile): MetadataMode {
    if profile.LmStudio? || profile.LmStudioChatCompletions? then NativeRequired else CompatibleOnly
  }

  function Api(profile: Profile): ApiMode {
    if profile.LmStudio? || profile.OpenAiResponses? then Responses else ChatCompletions
  }

  /** Four profiles, four pairs of legacy modes. */
  lemma ProfilesByModes(profile: Profile)
    ensures Metadata(profile) == NativeRequired <==> profile == LmStudio || profile == LmStudioChatCompletions
    ensures Api(profile) == Responses <==> profile == LmStudio || profile == OpenAiResponses
  {
  }

  function FromModes(metadata: MetadataMode, api: ApiMode): (profile: Profile)
    ensures Metadata(profile) == metadata && Api(profile) == api
  {
    match (metadata, api)
    case (NativeRequired, Responses) => LmStudio
    case (NativeRequired, ChatCompletions) => LmStudioChatCompletions
    case (CompatibleOnly, Responses) => OpenAiResponses
    case (CompatibleOnly, ChatCompletions) => OpenAiCompatible
  }

  function Or<T>(patch: Option<T>, current: T): T {
    if patch.Some? then patch.value else current
  }

  // ---- Endpoints -------------------------------------------------------------------------------

  function TrimStart(s: string): string {
    if s != "" && IsWhitespace(s[0]) then TrimStart(s[1..]) else s
  }

  function TrimEnd(s: string): string {
    if s != "" && IsWhitespace(Last(s)) then TrimEnd(Front(s)) else s
  }

  function Trim(s: string): string {
    TrimEnd(TrimStart(s))
  }

  lemma {:induction false} TrimStartExactly(space: string, s: string)
    requires (forall c :: c in space ==> IsWhitespace(c)) && (s != "" ==> !IsWhitespace(s[0]))
    ensures TrimStart(space + s) == s
  {
    if space == "" {
      assert space + s == s;
    } else {
      assert (space + s)[0] == space[0] && (space + s)[1..] == space[1..] + s;
      TrimStartExactly(space[1..], s);
    }
  }

  lemma {:induction false} TrimEndExactly(s: string, space: string)
    requires (forall c :: c in space ==> IsWhitespace(c)) && (s != "" ==> !IsWhitespace(Last(s)))
    ensures TrimEnd(s + space) == s
  {
    if space == "" {
      assert s + space == s;
    } else {
      assert Last(s + space) == Last(space) && Front(s + space) == s + Front(space);
      TrimEndExactly(s, Front(space));
    }
  }

  /** Trimming takes off exactly the white space around a text. */
  lemma TrimExactly(before: string, s: string, behind: string)
    requires (forall c :: c in before + behind ==> IsWhitespace(c)) && s != "" && !IsWhitespace(s[0]) && !IsWhitespace(Last(s))
    ensures Trim(before + s + behind) == s
  {
    assert before + s + behind == before + (s + behind);
    TrimStartExactly(before, s + behind);
    TrimEndExactly(s, behind);
  }

  /** Parses trimmed endpoint text to its canonical form. */
  type Parser = string -> Option<string>

  predicate SameEndpoint(parse: Parser, left: string, right: string) {
    var l, r := parse(Trim(left)), parse(Trim(right));
    if l.Some? && r.Some? then l == r else Trim(left) == Trim(right)
  }

  /** White space around endpoints does not matter; parsed ones compare by their canonical form, others as written. */
  lemma SameEndpointExactly(parse: Parser, a: string, b: string, spaced: string)
    requires Trim(spaced) == Trim(b)
    ensures SameEndpoint(parse, a, spaced) == SameEndpoint(parse, a, b)
    ensures parse(Trim(a)).Some? && parse(Trim(b)).Some? ==> (SameEndpoint(parse, a, b) <==> parse(Trim(a)) == parse(Trim(b)))
    ensures parse(Trim(a)).None? || parse(Trim(b)).None? ==> (SameEndpoint(parse, a, b) <==> Trim(a) == Trim(b))
  {
  }

  /** Endpoint sameness is an equivalence, also across texts that do not parse. */
  lemma SameEndpointTransitive(parse: Parser, a: string, b: string, c: string)
    requires SameEndpoint(parse, a, b) && SameEndpoint(parse, b, c)
    ensures SameEndpoint(parse, a, c) && SameEndpoint(parse, b, a) && SameEndpoint(parse, a, a)
  {
  }

  // ---- Connections -----------------------------------------------------------------------------

  /** The part of a configuration that names a provider and holds what only that provider may see. */
  datatype Connection = Connection(url: string, profile: Profile, key: Option<string>, headers: map<string, string>)

  // `key` is `Some(None)` when a layer removes the key reference.
  datatype Layer = Layer(url: Option<string>, profile: Option<Profile>, key: Option<Option<string>>, headers: Option<map<string, string>>)

  predicate Retargets(c: Connection, layer: Layer, parse: Parser) {
    || (layer.url.Some? && !SameEndpoint(parse, c.url, layer.url.value))
    || (layer.profile.Some? && layer.profile.value != c.profile)
  }

  /** A layer that moves the connection drops every credential it does not supply itself. */
  function Reconnect(c: Connection, layer: Layer, parse: Parser): Connection {
    var moved := Retargets(c, layer, parse);
    Connection(Or(layer.url, c.url), Or(layer.profile, c.profile),
               Or(layer.key, if moved then None else c.key),
               Or(layer.headers, if moved then map[] else c.headers))
  }

  function After(base: Connection, layers: seq<Layer>, n: nat, parse: Parser): Connection
    requires n <= |layers|
  {
    if n == 0 then base else Reconnect(After(base, layers, n - 1, parse), layers[n - 1], parse)
  }

  /** A layer names no endpoint but the same one, and no profile but the same one. */
  ghost predicate StaysAt(c: Connection, layer: Layer, parse: Parser) {
    && (layer.url.Some? ==> SameEndpoint(parse, c.url, layer.url.value))
    && (layer.profile.Some? ==> layer.profile.value == c.profile)
  }

  /**
   What one layer does, field by field. A layer that names no key keeps the key exactly if it stays at
   the endpoint and the profile, and the same holds for headers.
   */
  lemma LayerExactly(c: Connection, layer: Layer, parse: Parser)
    ensures var after := Reconnect(c, layer, parse);
            && after.url == (if layer.url.Some? then layer.url.value else c.url)
            && after.profile == (if layer.profile.Some? then layer.profile.value else c.profile)
            && after.key == (if layer.key.Some? then layer.key.value else if StaysAt(c, layer, parse) then c.key else None)
            && after.headers == (if layer.headers.Some? then layer.headers.value else if StaysAt(c, layer, parse) then c.headers else map[])
  {
  }

  // ---- Provenance ------------------------------------------------------------------------------

  ghost predicate SameTarget(parse: Parser, a: Connection, b: Connection) {
    SameEndpoint(parse, a.url, b.url) && a.profile == b.profile
  }

  /** No layer from `from` on moves the connection. */
  ghost predicate Settled(base: Connection, layers: seq<Layer>, from: nat, n: nat, parse: Parser)
    requires n <= |layers|
  {
    forall j :: from <= j < n ==> StaysAt(After(base, layers, j, parse), layers[j], parse)
  }

  lemma UnmovedTarget(parse: Parser, c: Connection, layer: Layer)
    requires !Retargets(c, layer, parse)
    ensures SameTarget(parse, c, Reconnect(c, layer, parse))
  {
  }

  lemma SameTargetTransitive(parse: Parser, a: Connection, b: Connection, c: Connection)
    requires SameTarget(parse, a, b) && SameTarget(parse, b, c)
    ensures SameTarget(parse, a, c)
  {
    SameEndpointTransitive(parse, a.url, b.url, c.url);
  }

  lemma SameAsItself(parse: Parser, c: Connection)
    ensures SameTarget(parse, c, c)
  {
  }

  lemma {:induction false} SettledKeepsTarget(base: Connection, layers: seq<Layer>, from: nat, n: nat, parse: Parser)
    requires from <= n <= |layers| && Settled(base, layers, from, n, parse)
    ensures SameTarget(parse, After(base, layers, from, parse), After(base, layers, n, parse))
  {
    if from == n {
      SameAsItself(parse, After(base, layers, n, parse));
    } else {
      SettledKeepsTarget(base, layers, from, n - 1, parse);
      UnmovedTarget(parse, After(base, layers, n - 1, parse), layers[n - 1]);
      SameTargetTransitive(parse, After(base, layers, from, parse), After(base, layers, n - 1, parse), After(base, layers, n, parse));
    }
  }

  /** Stage `i` supplies this key reference; stage 0 is the base, stage `i` is layer `i - 1`. */
  ghost predicate SuppliesKey(base: Connection, layers: seq<Layer>, i: nat, key: string)
    requires i <= |layers|
  {
    if i == 0 then base.key == Some(key) else layers[i - 1].key == Some(Some(key))
  }

  ghost predicate KeyFrom(base: Connection, layers: seq<Layer>, n: nat, parse: Parser, key: string, i: nat)
    requires n <= |layers|
  {
    && i <= n && SuppliesKey(base, layers, i, key)
    && Settled(base, layers, i, n, parse)
    && (forall j :: i <= j < n ==> layers[j].key.None?)
  }

  /** A supply carries over a layer exactly if the layer neither moves the connection nor names a key. */
  lemma KeyFromStep(base: Connection, layers: seq<Layer>, n: nat, parse: Parser, key: string, i: nat)
    requires 0 < n <= |layers| && i < n
    ensures KeyFrom(base, layers, n, parse, key, i)
       <==> && KeyFrom(base, layers, n - 1, parse, key, i)
            && layers[n - 1].key.None? && !Retargets(After(base, layers, n - 1, parse), layers[n - 1], parse)
  {
  }

  lemma NewestKey(base: Connection, layers: seq<Layer>, n: nat, parse: Parser, key: string)
    requires n <= |layers|
    ensures KeyFrom(base, layers, n, parse, key, n) <==> SuppliesKey(base, layers, n, key)
  {
  }

  /**
   Key provenance, both ways: a key reference is present exactly if some layer supplied it and no
   later layer replaced it, removed it, or changed the provider endpoint or profile.
   */
  lemma {:induction false} KeyExactly(base: Connection, layers: seq<Layer>, n: nat, parse: Parser, key: string)
    requires n <= |layers|
    ensures After(base, layers, n, parse).key == Some(key) <==> exists i: nat :: KeyFrom(base, layers, n, parse, key, i)
  {
    NewestKey(base, layers, n, parse, key);
    if n == 0 {
      assert SuppliesKey(base, layers, 0, key) ==> KeyFrom(base, layers, 0, parse, key, 0);
      return;
    }
    var m := n - 1;
    KeyExactly(base, layers, m, parse, key);
    KeyPresent(After(base, layers, m, parse), layers[m], parse, key);
    if After(base, layers, n, parse).key == Some(key) {
      if layers[m].key.Some? {
        assert KeyFrom(base, layers, n, parse, key, n);
      } else {
        var i: nat :| KeyFrom(base, layers, m, parse, key, i);
        KeyFromStep(base, layers, n, parse, key, i);
        assert KeyFrom(base, layers, n, parse, key, i);
      }
    }
    if i: nat :| KeyFrom(base, layers, n, parse, key, i) {
      if i < n {
        KeyFromStep(base, layers, n, parse, key, i);
        assert KeyFrom(base, layers, m, parse, key, i);
      }
    }
  }

  lemma KeyPresent(c: Connection, layer: Layer, parse: Parser, key: string)
    ensures Reconnect(c, layer, parse).key == Some(key)
       <==> layer.key == Some(Some(key)) || (layer.key.None? && !Retargets(c, layer, parse) && c.key == Some(key))
  {
  }

  /** The stage that supplied a present key left the connection at the provider it is used with now. */
  lemma KeyStaysWithProvider(base: Connection, layers: seq<Layer>, n: nat, parse: Parser, key: string) returns (i: nat)
    requires n <= |layers| && After(base, layers, n, parse).key == Some(key)
    ensures KeyFrom(base, layers, n, parse, key, i)
    ensures SameTarget(parse, After(base, layers, i, parse), After(base, layers, n, parse))
  {
    KeyExactly(base, layers, n, parse, key);
    i :| KeyFrom(base, layers, n, parse, key, i);
    SettledKeepsTarget(base, layers, i, n, parse);
  }

  ghost predicate SuppliesHeaders(base: Connection, layers: seq<Layer>, i: nat, headers: map<string, string>)
    requires i <= |layers|
  {
    if i == 0 then base.headers == headers else layers[i - 1].headers == Some(headers)
  }

  ghost predicate HeadersFrom(base: Connection, layers: seq<Layer>, n: nat, parse: Parser, headers: map<string, string>, i: nat)
    requires n <= |layers|
  {
    && i <= n && SuppliesHeaders(base, layers, i, headers)
    && Settled(base, layers, i, n, parse)
    && (forall j :: i <= j < n ==> layers[j].headers.None?)
  }

  /** Stage `i` supplies this header. */
  ghost predicate SuppliesHeader(base: Connection, layers: seq<Layer>, i: nat, name: string, value: string)
    requires i <= |layers|
  {
    exists headers :: SuppliesHeaders(base, layers, i, headers) && name in headers && headers[name] == value
  }

  ghost predicate HeaderFrom(base: Connection, layers: seq<Layer>, n: nat, parse: Parser, name: string, value: string, i: nat)
    requires n <= |layers|
  {
    && i <= n && SuppliesHeader(base, layers, i, name, value)
    && Settled(base, layers, i, n, parse)
    && (forall j :: i <= j < n ==> layers[j].headers.None?)
  }

  /** Header provenance, both ways, header by header: present exactly if supplied and neither replaced nor dropped since. */
  lemma HeadersExactly(base: Connection, layers: seq<Layer>, n: nat, parse: Parser, name: string, value: string)
    requires n <= |layers|
    ensures name in After(base, layers, n, parse).headers && After(base, layers, n, parse).headers[name] == value
       <==> exists i: nat :: HeaderFrom(base, layers, n, parse, name, value, i)
  {
    var now := After(base, layers, n, parse).headers;
    if name in now && now[name] == value {
      var i := HeadersStayWithProvider(base, layers, n, parse);
      assert SuppliesHeaders(base, layers, i, now);
      assert HeaderFrom(base, layers, n, parse, name, value, i);
    }
    if i: nat :| HeaderFrom(base, layers, n, parse, name, value, i) {
      SuppliedHeadersStay(base, layers, i, n, parse);
      var headers :| SuppliesHeaders(base, layers, i, headers) && name in headers && headers[name] == value;
      assert After(base, layers, i, parse).headers == headers;
    }
  }

  /** Headers stay as supplied while no layer moves the connection or names headers. */
  lemma {:induction false} SuppliedHeadersStay(base: Connection, layers: seq<Layer>, from: nat, n: nat, parse: Parser)
    requires from <= n <= |layers| && Settled(base, layers, from, n, parse)
    requires forall j :: from <= j < n ==> layers[j].headers.None?
    ensures After(base, layers, n, parse).headers == After(base, layers, from, parse).headers
  {
    if from < n {
      SuppliedHeadersStay(base, layers, from, n - 1, parse);
      LayerExactly(After(base, layers, n - 1, parse), layers[n - 1], parse);
    }
  }

  lemma HeadersFromStep(base: Connection, layers: seq<Layer>, n: nat, parse: Parser, headers: map<string, string>, i: nat)
    requires 0 < n <= |layers| && HeadersFrom(base, layers, n - 1, parse, headers, i)
    requires layers[n - 1].headers.None? && StaysAt(After(base, layers, n - 1, parse), layers[n - 1], parse)
    ensures HeadersFrom(base, layers, n, parse, headers, i)
  {
    forall j | i <= j < n
      ensures layers[j].headers.None? && StaysAt(After(base, layers, j, parse), layers[j], parse)
    {
      assert j < n - 1 || j == n - 1;
    }
  }

  /** Header provenance: headers that are present all come from one such layer. */
  lemma {:induction false} HeadersStayWithProvider(base: Connection, layers: seq<Layer>, n: nat, parse: Parser) returns (i: nat)
    requires n <= |layers| && After(base, layers, n, parse).headers != map[]
    ensures HeadersFrom(base, layers, n, parse, After(base, layers, n, parse).headers, i)
    ensures SameTarget(parse, After(base, layers, i, parse), After(base, layers, n, parse))
  {
    if n == 0 || layers[n - 1].headers.Some? {
      i := n;
    } else {
      LayerExactly(After(base, layers, n - 1, parse), layers[n - 1], parse);
      i := HeadersStayWithProvider(base, layers, n - 1, parse);
      HeadersFromStep(base, layers, n, parse, After(base, layers, n, parse).headers, i);
    }
    SettledKeepsTarget(base, layers, i, n, parse);
  }

  // ---- Patches ---------------------------------------------------------------------------------

  datatype PartialModel = PartialModel(
    url: Option<string>, model: Option<string>, systemPrompt: Option<string>, profile: Option<Profile>,
    metadataMode: Option<MetadataMode>, apiMode: Option<ApiMode>,
    key: Option<Option<string>>, headers: Option<map<string, string>>, extraBody: Option<string>,
    requestTimeout: Option<nat>, connectTimeout: Option<nat>, maxRetries: Option<nat>, contextWindow: Option<nat>,
    compactionBudget: Option<nat>, supportsTools: Option<bool>, supportsImages: Option<bool>,
    parallelCalls: Option<bool>, maxPredictions: Option<nat>)

  datatype PartialSideChat = PartialSideChat(
    url: Option<string>, model: Option<string>, key: Option<Option<string>>, systemPrompt: Option<string>,
    profile: Option<Profile>, contextWindow: Option<nat>, requestTimeout: Option<nat>, connectTimeout: Option<nat>,
    maxRetries: Option<nat>)

  datatype PartialApprove = PartialApprove(
    url: Option<string>, model: Option<string>, profile: Option<Profile>, key: Option<Option<string>>,
    headers: Option<map<string, string>>, contextWindow: Option<nat>, requestTimeout: Option<nat>,
    connectTimeout: Option<nat>, maxRetries: Option<nat>)

  datatype PartialConfig = PartialConfig(model: Option<PartialModel>, sideChat: Option<PartialSideChat>, approve: Option<PartialApprove>)

  /** The profile a patch asks for, legacy modes completed from the inherited profile. */
  function AskedProfile(patch: PartialModel, inherited: Profile): Option<Profile> {
    if patch.profile.Some? then patch.profile
    else if patch.metadataMode.Some? || patch.apiMode.Some?
    then Some(FromModes(Or(patch.metadataMode, Metadata(inherited)), Or(patch.apiMode, Api(inherited))))
    else None
  }

  /** The canonical profile and the legacy modes do not contradict each other. */
  predicate Consistent(patch: PartialModel) {
    patch.profile.Some? ==>
      && (patch.metadataMode.Some? ==> patch.metadataMode.value == Metadata(patch.profile.value))
      && (patch.apiMode.Some? ==> patch.apiMode.value == Api(patch.profile.value))
  }

  function ModelLayer(patch: PartialModel, inherited: Profile): Layer {
    Layer(patch.url, AskedProfile(patch, inherited), patch.key, patch.headers)
  }

  function SideChatLayer(patch: PartialSideChat): Layer {
    Layer(patch.url, patch.profile, patch.key, None)
  }

  function ApproveLayer(patch: PartialApprove): Layer {
    Layer(patch.url, patch.profile, patch.key, patch.headers)
  }

  /** The profile a patch leads to: the canonical one, then the legacy modes on top of it. */
  function FinalProfile(patch: PartialModel, current: Profile): Profile {
    var named := Or(patch.profile, current);
    if patch.metadataMode.Some? || patch.apiMode.Some?
    then FromModes(Or(patch.metadataMode, Metadata(named)), Or(patch.apiMode, Api(named)))
    else named
  }

  /** Legacy modes complete each other from the inherited profile, and a canonical profile goes before them. */
  lemma AskedExactly(patch: PartialModel, inherited: Profile)
    ensures var asked := AskedProfile(patch, inherited);
            if patch.profile.Some? then asked == patch.profile
            else if patch.metadataMode.None? && patch.apiMode.None? then asked == None
            else
              && asked.Some?
              && Metadata(asked.value) == (if patch.metadataMode.Some? then patch.metadataMode.value else Metadata(inherited))
              && Api(asked.value) == (if patch.apiMode.Some? then patch.apiMode.value else Api(inherited))
  {
  }

  /** A patch leads to the profile it asks for exactly if it does not contradict itself. */
  lemma AskedIsFinal(patch: PartialModel, current: Profile)
    ensures FinalProfile(patch, current) == Or(AskedProfile(patch, current), current) <==> Consistent(patch)
  {
  }

  /** The main model's connection after a patch: judged by the profile asked for, left at the final one. */
  function Patched(c: Connection, patch: PartialModel, parse: Parser): Connection {
    Reconnect(c, ModelLayer(patch, c.profile), parse).(profile := FinalProfile(patch, c.profile))
  }

  /** A patch under normalisation. */
  class PatchCell {
    var patch: PartialConfig

    constructor (patch: PartialConfig)
      ensures this.patch == patch
    {
      this.patch := patch;
    }

    /**
     Folds legacy modes into the canonical profile. It is refused exactly for contradicting patches;
     an accepted patch asks for the same profile as before, and carries no legacy mode any more.
     */
    method NormalizeProfileAlias(inherited: Profile) returns (ok: bool)
      modifies this
      ensures ok <==> (old(patch).model.Some? ==> Consistent(old(patch).model.value))
      ensures !ok ==> patch == old(patch)
      ensures patch.model.Some? <==> old(patch).model.Some?
      ensures patch == old(patch).(model := patch.model)
      ensures ok && patch.model.Some? ==>
                var before, after := old(patch).model.value, patch.model.value;
                && after == before.(profile := after.profile, metadataMode := None, apiMode := None)
                && forall p :: AskedProfile(after, p) == AskedProfile(before, inherited)
    {
      if patch.model.None? {
        return true;
      }
      var model := patch.model.value;
      if model.profile.Some? {
        if model.metadataMode.Some? && model.metadataMode.value != Metadata(model.profile.value) {
          return false;
        }
        if model.apiMode.Some? && model.apiMode.value != Api(model.profile.value) {
          return false;
        }
      } else if model.metadataMode.Some? || model.apiMode.Some? {
        model := model.(profile := Some(FromModes(Or(model.metadataMode, Metadata(inherited)), Or(model.apiMode, Api(inherited)))));
      }
      model := model.(metadataMode := None, apiMode := None);
      patch := patch.(model := Some(model));
      ok := true;
    }
  }

  // ---- Configurations --------------------------------------------------------------------------

  /** Settings that used to override the provider host's generation policy; they are only read back. */
  datatype Generation = Generation(
    reasoningParameters: Option<string>, reasoningEffort: Option<string>, reasoningSummary: Option<string>,
    maxOutputTokens: nat, temperature: Option<real>, topP: Option<real>, topK: Option<nat>,
    presencePenalty: Option<real>, frequencyPenalty: Option<real>, seed: Option<nat>, stopSequences: seq<string>,
    supportsReasoning: bool, extraBody: Option<string>)

  const INERT := Generation(None, None, None, 32768, None, None, None, None, None, None, [], false, None)

  /** The body a patch leaves for the moment: it may drop it, but it never supplies one. */
  function KeptBody(c: Connection, generation: Generation, patch: PartialModel, parse: Parser): Option<string> {
    if Retargets(c, ModelLayer(patch, c.profile), parse) && patch.extraBody.None? then None else generation.extraBody
  }

  class ModelConfig {
    var url: string
    var model: string
    var systemPrompt: string
    var profile: Profile
    var key: Option<string>
    var headers: map<string, string>
    var generation: Generation
    var requestTimeout: nat
    var connectTimeout: nat
    var maxRetries: nat
    var contextWindow: nat
    var compactionBudget: Option<nat>
    var supportsTools: bool
    var supportsImages: bool
    var parallelCalls: bool
    var maxPredictions: nat

    function Target(): Connection
      reads this
    {
      Connection(url, profile, key, headers)
    }

    /** Drops whatever still overrides the provider host's generation policy. */
    method ClearLegacyGenerationSettings()
      modifies this`generation
      ensures generation == INERT
    {
      generation := generation.(reasoningParameters := None, reasoningEffort := None, reasoningSummary := None,
                                maxOutputTokens := 32768, temperature := None, topP := None, topK := None,
                                presencePenalty := None, frequencyPenalty := None, seed := None, stopSequences := [],
                                supportsReasoning := false, extraBody := None);
    }

    /** Overwrites what the patch names; a moved connection loses the credentials the patch does not supply. */
    method Apply(patch: PartialModel, parse: Parser)
      modifies this
      ensures Target() == Patched(old(Target()), patch, parse)
      ensures url == (if patch.url.Some? then patch.url.value else old(url))
      ensures key == if patch.key.Some? then patch.key.value
                     else if (patch.url.Some? && !SameEndpoint(parse, old(url), patch.url.value))
                             || (AskedProfile(patch, old(profile)).Some? && AskedProfile(patch, old(profile)).value != old(profile)) then None
                     else old(key)
      ensures headers == if patch.headers.Some? then patch.headers.value
                         else if (patch.url.Some? && !SameEndpoint(parse, old(url), patch.url.value))
                                 || (AskedProfile(patch, old(profile)).Some? && AskedProfile(patch, old(profile)).value != old(profile)) then map[]
                         else old(headers)
      ensures generation == old(generation).(extraBody := KeptBody(old(Target()), old(generation), patch, parse))
      ensures model == Or(patch.model, old(model)) && systemPrompt == Or(patch.systemPrompt, old(systemPrompt))
      ensures requestTimeout == Or(patch.requestTimeout, old(requestTimeout)) && connectTimeout == Or(patch.connectTimeout, old(connectTimeout))
      ensures maxRetries == Or(patch.maxRetries, old(maxRetries)) && contextWindow == Or(patch.contextWindow, old(contextWindow))
      ensures compactionBudget == if patch.compactionBudget.Some? then patch.compactionBudget else old(compactionBudget)
      ensures supportsTools == Or(patch.supportsTools, old(supportsTools)) && supportsImages == Or(patch.supportsImages, old(supportsImages))
      ensures parallelCalls == Or(patch.parallelCalls, old(parallelCalls))
      ensures maxPredictions == if patch.maxPredictions.None? then old(maxPredictions)
                                else if patch.maxPredictions.value == 0 then 1 else patch.maxPredictions.value
    {
      Retarget(patch, parse);
      SetLimits(patch);
      SetAbilities(patch);
    }

    /** Texts, timeouts and windows. */
    method SetLimits(patch: PartialModel)
      modifies this`model, this`systemPrompt, this`requestTimeout, this`connectTimeout, this`maxRetries, this`contextWindow, this`compactionBudget
      ensures model == Or(patch.model, old(model)) && systemPrompt == Or(patch.systemPrompt, old(systemPrompt))
      ensures requestTimeout == Or(patch.requestTimeout, old(requestTimeout)) && connectTimeout == Or(patch.connectTimeout, old(connectTimeout))
      ensures maxRetries == Or(patch.maxRetries, old(maxRetries)) && contextWindow == Or(patch.contextWindow, old(contextWindow))
      ensures compactionBudget == if patch.compactionBudget.Some? then patch.compactionBudget else old(compactionBudget)
    {
      model, systemPrompt := Or(patch.model, model), Or(patch.systemPrompt, systemPrompt);
      requestTimeout, connectTimeout := Or(patch.requestTimeout, requestTimeout), Or(patch.connectTimeout, connectTimeout);
      maxRetries, contextWindow := Or(patch.maxRetries, maxRetries), Or(patch.contextWindow, contextWindow);
      if patch.compactionBudget.Some? {
        compactionBudget := Some(patch.compactionBudget.value);
      }
    }

    method SetAbilities(patch: PartialModel)
      modifies this`supportsTools, this`supportsImages, this`parallelCalls, this`maxPredictions
      ensures supportsTools == Or(patch.supportsTools, old(supportsTools)) && supportsImages == Or(patch.supportsImages, old(supportsImages))
      ensures parallelCalls == Or(patch.parallelCalls, old(parallelCalls))
      ensures maxPredictions == if patch.maxPredictions.None? then old(maxPredictions)
                                else if patch.maxPredictions.value == 0 then 1 else patch.maxPredictions.value
    {
      supportsTools, supportsImages := Or(patch.supportsTools, supportsTools), Or(patch.supportsImages, supportsImages);
      parallelCalls := Or(patch.parallelCalls, parallelCalls);
      if patch.maxPredictions.Some? {
        maxPredictions := if patch.maxPredictions.value < 1 then 1 else patch.maxPredictions.value;
      }
    }

    /** The endpoint, the profile, and what may only be sent to them. */
    method Retarget(patch: PartialModel, parse: Parser)
      modifies this`url, this`profile, this`key, this`headers, this`generation
      ensures Target() == Patched(old(Target()), patch, parse)
      ensures generation == old(generation).(extraBody := KeptBody(old(Target()), old(generation), patch, parse))
    {
      if Retargets(Target(), ModelLayer(patch, profile), parse) {
        key := if patch.key.None? then None else key;
        headers := if patch.headers.None? then map[] else headers;
        generation := if patch.extraBody.None? then generation.(extraBody := None) else generation;
      }
      url := Or(patch.url, url);
      profile := FinalProfile(patch, profile);
      key, headers := Or(patch.key, key), Or(patch.headers, headers);
    }
  }

  class SideChatConfig {
    var url: string
    var model: string
    var key: Option<string>
    var systemPrompt: string
    var profile: Profile
    var contextWindow: nat
    var requestTimeout: nat
    var connectTimeout: nat
    var maxRetries: nat

    function Target(): Connection
      reads this
    {
      Connection(url, profile, key, map[])
    }

    method Apply(patch: PartialSideChat, parse: Parser)
      modifies this
      ensures Target() == Reconnect(old(Target()), SideChatLayer(patch), parse)
      ensures url == (if patch.url.Some? then patch.url.value else old(url))
      ensures key == if patch.key.Some? then patch.key.value
                     else if (patch.url.Some? && !SameEndpoint(parse, old(url), patch.url.value))
                             || (patch.profile.Some? && patch.profile.value != old(profile)) then None
                     else old(key)
      ensures profile == (if patch.profile.Some? then patch.profile.value else old(profile))
      ensures model == Or(patch.model, old(model)) && systemPrompt == Or(patch.systemPrompt, old(systemPrompt))
      ensures requestTimeout == Or(patch.requestTimeout, old(requestTimeout)) && connectTimeout == Or(patch.connectTimeout, old(connectTimeout))
      ensures maxRetries == Or(patch.maxRetries, old(maxRetries)) && contextWindow == Or(patch.contextWindow, old(contextWindow))
    {
      if Retargets(Target(), SideChatLayer(patch), parse) && patch.key.None? {
        key := None;
      }
      url, model, key := Or(patch.url, url), Or(patch.model, model), Or(patch.key, key);
      systemPrompt, profile := Or(patch.systemPrompt, systemPrompt), Or(patch.profile, profile);
      contextWindow, requestTimeout := Or(patch.contextWindow, contextWindow), Or(patch.requestTimeout, requestTimeout);
      connectTimeout, maxRetries := Or(patch.connectTimeout, connectTimeout), Or(patch.maxRetries, maxRetries);
    }
  }

  class ApproveConfig {
    var url: string
    var model: string
    var profile: Profile
    var key: Option<string>
    var headers: map<string, string>
    var contextWindow: nat
    var requestTimeout: nat
    var connectTimeout: nat
    var maxRetries: nat

    function Target(): Connection
      reads this
    {
      Connection(url, profile, key, headers)
    }

    constructor FromModel(m: ModelConfig)
      ensures Target() == m.Target() && model == m.model && contextWindow == m.contextWindow
      ensures requestTimeout == m.requestTimeout && connectTimeout == m.connectTimeout && maxRetries == m.maxRetries
    {
      url, model, profile, key, headers := m.url, m.model, m.profile, m.key, m.headers;
      contextWindow, requestTimeout, connectTimeout, maxRetries := m.contextWindow, m.requestTimeout, m.connectTimeout, m.maxRetries;
    }

    method Apply(patch: PartialApprove, parse: Parser)
      modifies this
      ensures Target() == Reconnect(old(Target()), ApproveLayer(patch), parse)
      ensures url == (if patch.url.Some? then patch.url.value else old(url))
      ensures key == if patch.key.Some? then patch.key.value
                     else if (patch.url.Some? && !SameEndpoint(parse, old(url), patch.url.value))
                             || (patch.profile.Some? && patch.profile.value != old(profile)) then None
                     else old(key)
      ensures headers == if patch.headers.Some? then patch.headers.value
                         else if (patch.url.Some? && !SameEndpoint(parse, old(url), patch.url.value))
                                 || (patch.profile.Some? && patch.profile.value != old(profile)) then map[]
                         else old(headers)
      ensures profile == (if patch.profile.Some? then patch.profile.value else old(profile))
      ensures model == Or(patch.model, old(model)) && contextWindow == Or(patch.contextWindow, old(contextWindow))
      ensures requestTimeout == Or(patch.requestTimeout, old(requestTimeout)) && connectTimeout == Or(patch.connectTimeout, old(connectTimeout))
      ensures maxRetries == Or(patch.maxRetries, old(maxRetries))
    {
      Retarget(patch, parse);
      model, contextWindow := Or(patch.model, model), Or(patch.contextWindow, contextWindow);
      requestTimeout, connectTimeout := Or(patch.requestTimeout, requestTimeout), Or(patch.connectTimeout, connectTimeout);
      maxRetries := Or(patch.maxRetries, maxRetries);
    }

    /** The endpoint, the profile, and what may only be sent to them. */
    method Retarget(patch: PartialApprove, parse: Parser)
      modifies this`url, this`profile, this`key, this`headers
      ensures Target() == Reconnect(old(Target()), ApproveLayer(patch), parse)
      ensures url == (if patch.url.Some? then patch.url.value else old(url))
      ensures key == if patch.key.Some? then patch.key.value
                     else if (patch.url.Some? && !SameEndpoint(parse, old(url), patch.url.value))
                             || (patch.profile.Some? && patch.profile.value != old(profile)) then None
                     else old(key)
      ensures headers == if patch.headers.Some? then patch.headers.value
                         else if (patch.url.Some? && !SameEndpoint(parse, old(url), patch.url.value))
                                 || (patch.profile.Some? && patch.profile.value != old(profile)) then map[]
                         else old(headers)
      ensures profile == (if patch.profile.Some? then patch.profile.value else old(profile))
    {
      if Retargets(Target(), ApproveLayer(patch), parse) {
        key := if patch.key.None? then None else key;
        headers := if patch.headers.None? then map[] else headers;
      }
      url, profile := Or(patch.url, url), Or(patch.profile, profile);
      key, headers := Or(patch.key, key), Or(patch.headers, headers);
    }
  }

  // ---- One layer over the whole configuration --------------------------------------------------

  /** The three connections of a configuration. */
  datatype Targets = Targets(model: Connection, sideChat: Connection, approve: Option<Connection>)

  function LayerTargets(t: Targets, patch: PartialConfig, parse: Parser): Targets {
    var model := if patch.model.Some? then Patched(t.model, patch.model.value, parse) else t.model;
    Targets(model,
            if patch.sideChat.Some? then Reconnect(t.sideChat, SideChatLayer(patch.sideChat.value), parse) else t.sideChat,
            if patch.approve.Some? then Some(Reconnect(Or(t.approve, model), ApproveLayer(patch.approve.value), parse)) else t.approve)
  }

  /** A first patch of the approving model starts from the main model as the same layer leaves it. */
  lemma ApproveStartsFromMain(t: Targets, patch: PartialConfig, parse: Parser)
    requires patch.approve.Some?
    ensures var after := LayerTargets(t, patch, parse);
            var start := if t.approve.Some? then t.approve.value else after.model;
            && after.approve.Some?
            && after.approve.value.url == (if patch.approve.value.url.Some? then patch.approve.value.url.value else start.url)
            && after.approve.value.profile == (if patch.approve.value.profile.Some? then patch.approve.value.profile.value else start.profile)
            && (patch.approve.value.url.None? && patch.approve.value.profile.None? && patch.approve.value.key.None?
                ==> after.approve.value.key == start.key)
  {
  }

  /** A layer without a patch for it leaves a connection alone. */
  lemma UnnamedStays(t: Targets, patch: PartialConfig, parse: Parser)
    ensures patch.model.None? ==> LayerTargets(t, patch, parse).model == t.model
    ensures patch.sideChat.None? ==> LayerTargets(t, patch, parse).sideChat == t.sideChat
    ensures patch.approve.None? ==> LayerTargets(t, patch, parse).approve == t.approve
  {
  }

  class ResolvedConfig {
    const model: ModelConfig
    const sideChat: SideChatConfig
    var approve: ApproveConfig?

    constructor (model: ModelConfig, sideChat: SideChatConfig)
      ensures this.model == model && this.sideChat == sideChat && approve == null
    {
      this.model, this.sideChat, this.approve := model, sideChat, null;
    }

    ghost function All(): Targets
      reads this, model, sideChat, approve
    {
      Targets(model.Target(), sideChat.Target(), if approve == null then None else Some(approve.Target()))
    }

    /**
     One layer. The approving model starts from the main model's connection and then goes its own way.
     Whatever the base held and the patch named, no generation setting outlives the layer.
     */
    method ApplyPatch(patch: PartialConfig, parse: Parser)
      modifies this, model, sideChat, approve
      ensures old(approve) == null ==> approve == null || fresh(approve)
      ensures old(approve) != null ==> approve == old(approve)
      ensures All() == LayerTargets(old(All()), patch, parse)
      ensures model.generation == INERT
    {
      if patch.model.Some? {
        model.Apply(patch.model.value, parse);
      }
      if patch.sideChat.Some? {
        sideChat.Apply(patch.sideChat.value, parse);
      }
      if patch.approve.Some? {
        if approve == null {
          approve := new ApproveConfig.FromModel(model);
        }
        approve.Apply(patch.approve.value, parse);
      }
      model.ClearLegacyGenerationSettings();
    }
  }

  // ---- Runs of layers --------------------------------------------------------------------------

  function AfterAll(base: Targets, patches: seq<PartialConfig>, n: nat, parse: Parser): Targets
    requires n <= |patches|
  {
    if n == 0 then base else LayerTargets(AfterAll(base, patches, n - 1, parse), patches[n - 1], parse)
  }

  const NOTHING := Layer(None, None, None, None)

  lemma NothingChanges(c: Connection, parse: Parser)
    ensures Reconnect(c, NOTHING, parse) == c && !Retargets(c, NOTHING, parse)
  {
  }

  /** What the patches mean for the main model, one layer each; legacy modes were normalised away. */
  function ModelLayers(patches: seq<PartialConfig>): (layers: seq<Layer>)
    ensures |layers| == |patches|
  {
    seq(|patches|, i requires 0 <= i < |patches| =>
      if patches[i].model.Some? then Layer(patches[i].model.value.url, patches[i].model.value.profile,
                                           patches[i].model.value.key, patches[i].model.value.headers) else NOTHING)
  }

  function SideChatLayers(patches: seq<PartialConfig>): (layers: seq<Layer>)
    ensures |layers| == |patches|
  {
    seq(|patches|, i requires 0 <= i < |patches| => if patches[i].sideChat.Some? then SideChatLayer(patches[i].sideChat.value) else NOTHING)
  }

  /** Accepted by the alias normaliser. */
  predicate Normalized(patch: PartialConfig) {
    patch.model.Some? ==> patch.model.value.metadataMode.None? && patch.model.value.apiMode.None?
  }

  /** Main model and side chat evolve as runs of their own layers. */
  lemma {:induction false} RunsSeparate(base: Targets, patches: seq<PartialConfig>, n: nat, parse: Parser)
    requires n <= |patches| && forall i :: 0 <= i < |patches| ==> Normalized(patches[i])
    ensures AfterAll(base, patches, n, parse).model == After(base.model, ModelLayers(patches), n, parse)
    ensures AfterAll(base, patches, n, parse).sideChat == After(base.sideChat, SideChatLayers(patches), n, parse)
  {
    if n > 0 {
      RunsSeparate(base, patches, n - 1, parse);
      NothingChanges(AfterAll(base, patches, n - 1, parse).model, parse);
      NothingChanges(AfterAll(base, patches, n - 1, parse).sideChat, parse);
    }
  }

  /**
   Credential provenance for the whole run: a key reference still held by the main model or by the
   side chat, and any headers of the main model, were supplied for the provider they are now used with.
   */
  lemma CredentialsStayWithProvider(base: Targets, patches: seq<PartialConfig>, n: nat, parse: Parser, key: string)
    requires n <= |patches| && forall i :: 0 <= i < |patches| ==> Normalized(patches[i])
    ensures AfterAll(base, patches, n, parse).model.key == Some(key) ==>
              exists i: nat :: KeyFrom(base.model, ModelLayers(patches), n, parse, key, i)
                          && SameTarget(parse, AfterAll(base, patches, i, parse).model, AfterAll(base, patches, n, parse).model)
    ensures AfterAll(base, patches, n, parse).sideChat.key == Some(key) ==>
              exists i: nat :: KeyFrom(base.sideChat, SideChatLayers(patches), n, parse, key, i)
                          && SameTarget(parse, AfterAll(base, patches, i, parse).sideChat, AfterAll(base, patches, n, parse).sideChat)
    ensures var headers := AfterAll(base, patches, n, parse).model.headers;
            headers != map[] ==>
              exists i: nat :: HeadersFrom(base.model, ModelLayers(patches), n, parse, headers, i)
                          && SameTarget(parse, AfterAll(base, patches, i, parse).model, AfterAll(base, patches, n, parse).model)
  {
    RunsSeparate(base, patches, n, parse);
    if AfterAll(base, patches, n, parse).model.key == Some(key) {
      var i := KeyStaysWithProvider(base.model, ModelLayers(patches), n, parse, key);
      RunsSeparate(base, patches, i, parse);
    }
    if AfterAll(base, patches, n, parse).sideChat.key == Some(key) {
      var i := KeyStaysWithProvider(base.sideChat, SideChatLayers(patches), n, parse, key);
      RunsSeparate(base, patches, i, parse);
    }
    if AfterAll(base, patches, n, parse).model.headers != map[] {
      var i := HeadersStayWithProvider(base.model, ModelLayers(patches), n, parse);
      RunsSeparate(base, patches, i, parse);
    }
  }

  /** The approving model's key comes from its own layers, or was the main model's for the same provider. */
  lemma {:induction false} ApproveKeyOrigin(base: Targets, patches: seq<PartialConfig>, n: nat, parse: Parser, key: string)
    returns (i: nat, own: bool)
    requires n <= |patches| && AfterAll(base, patches, n, parse).approve.Some?
    requires AfterAll(base, patches, n, parse).approve.value.key == Some(key)
    ensures i <= n
    ensures own ==> if i == 0 then base.approve.Some? && base.approve.value.key == Some(key)
                    else patches[i - 1].approve.Some? && patches[i - 1].approve.value.key == Some(Some(key))
    ensures own ==> AfterAll(base, patches, i, parse).approve.Some?
                    && SameTarget(parse, AfterAll(base, patches, i, parse).approve.value, AfterAll(base, patches, n, parse).approve.value)
    ensures !own ==> AfterAll(base, patches, i, parse).model.key == Some(key)
                     && SameTarget(parse, AfterAll(base, patches, i, parse).model, AfterAll(base, patches, n, parse).approve.value)
  {
    var now := AfterAll(base, patches, n, parse).approve.value;
    if n == 0 {
      i, own := 0, true;
    } else {
      var before, patch := AfterAll(base, patches, n - 1, parse), patches[n - 1];
      if patch.approve.Some? && patch.approve.value.key.Some? {
        i, own := n, true;
      } else if patch.approve.Some? && before.approve.None? {
        i, own := n, false;
      } else {
        i, own := ApproveKeyOrigin(base, patches, n - 1, parse, key);
        var origin := if own then AfterAll(base, patches, i, parse).approve.value else AfterAll(base, patches, i, parse).model;
        SameEndpointTransitive(parse, origin.url, before.approve.value.url, now.url);
      }
    }
  }
}
