/** The admission webhook that injects a GPU-class node selector (pkg/webhook/pod_mutation.go), with the
    JSON Pointer decoding of RFC 6901 section 4 and the JSON Patch `add` of RFC 6902 section 4.1 as the
    API server applies them. */
module Webhook {
  import opened Text

  // ---- JSON Pointer ----

  /** `strings.ReplaceAll` for a one-character pattern. */
  function ReplaceAll(s: string, c: char, text: string): string {
    if |s| == 0 then "" else (if s[0] == c then text else [s[0]]) + ReplaceAll(s[1..], c, text)
  }

  /** Tilde first, then slash. */
  function EscapeJSONPointer(s: string): string {
    ReplaceAll(ReplaceAll(s, '~', "~0"), '/', "~1")
  }

  /** Every occurrence of a two-character pattern, left to right. */
  function ReplacePairs(s: string, first: char, second: char, c: char): string {
    if |s| < 2 then s
    else if s[0] == first && s[1] == second then [c] + ReplacePairs(s[2..], first, second, c)
    else [s[0]] + ReplacePairs(s[1..], first, second, c)
  }

  /** A reference token is decoded by turning "~1" into a slash and only then "~0" into a tilde. */
  function DecodeToken(token: string): string {
    ReplacePairs(ReplacePairs(token, '~', '1', '/'), '~', '0', '~')
  }

  /** What escaping does to one character. */
  function EscapeChar(c: char): string {
    if c == '~' then "~0" else if c == '/' then "~1" else [c]
  }

  lemma {:induction false} ReplaceAllConcat(a: string, b: string, c: char, text: string)
    ensures ReplaceAll(a + b, c, text) == ReplaceAll(a, c, text) + ReplaceAll(b, c, text)
  {
    if |a| == 0 {
      assert a + b == b;
    } else {
      assert (a + b)[1..] == a[1..] + b;
      ReplaceAllConcat(a[1..], b, c, text);
    }
  }

  /** The two passes together escape character by character. */
  lemma EscapeFirst(s: string)
    requires |s| > 0
    ensures EscapeJSONPointer(s) == EscapeChar(s[0]) + EscapeJSONPointer(s[1..])
  {
    var head := if s[0] == '~' then "~0" else [s[0]];
    ReplaceAllConcat(head, ReplaceAll(s[1..], '~', "~0"), '/', "~1");
    assert ReplaceAll(head, '/', "~1") == EscapeChar(s[0]) by {
      if s[0] == '~' {
        assert "~0"[1..] == "0" && "0"[1..] == "";
      } else {
        assert [s[0]][1..] == "";
        assert EscapeChar(s[0]) + "" == EscapeChar(s[0]);
      }
    }
  }

  /** After the slashes are back, the text is the key with its tildes still escaped. */
  lemma {:induction false} SlashesComeBack(s: string)
    ensures ReplacePairs(EscapeJSONPointer(s), '~', '1', '/') == ReplaceAll(s, '~', "~0")
  {
    if |s| > 0 {
      EscapeFirst(s);
      SlashesComeBack(s[1..]);
      var e, rest := EscapeJSONPointer(s), EscapeJSONPointer(s[1..]);
      if s[0] == '~' {
        assert e[1..] == "0" + rest;
        SkipPlain("0", rest, '1', '/');
      } else if s[0] == '/' {
        assert e[2..] == rest;
      } else {
        SkipPlain([s[0]], rest, '1', '/');
      }
    }
  }

  /** A character that is no tilde is passed over. */
  lemma SkipPlain(head: string, rest: string, second: char, c: char)
    requires |head| == 1 && head[0] != '~'
    ensures ReplacePairs(head + rest, '~', second, c) == head + ReplacePairs(rest, '~', second, c)
  {
    assert (head + rest)[1..] == rest;
    if |rest| == 0 { assert head + rest == head; }
  }

  lemma {:induction false} TildesComeBack(s: string)
    ensures ReplacePairs(ReplaceAll(s, '~', "~0"), '~', '0', '~') == s
  {
    if |s| > 0 {
      TildesComeBack(s[1..]);
      var rest := ReplaceAll(s[1..], '~', "~0");
      assert s == [s[0]] + s[1..];
      if s[0] == '~' {
        assert ("~0" + rest)[2..] == rest;
      } else {
        SkipPlain([s[0]], rest, '0', '~');
      }
    }
  }

  lemma {:induction false} EscapedHasNoSlash(s: string)
    ensures '/' !in EscapeJSONPointer(s)
  {
    if |s| > 0 {
      EscapeFirst(s);
      EscapedHasNoSlash(s[1..]);
    }
  }

  /** The reference tokens of a pointer: what stands between its slashes, decoded. */
  function Tokens(path: string): seq<string> {
    var parts := Split(path, '/');
    seq(|parts| - 1, i requires 0 <= i < |parts| - 1 => DecodeToken(parts[i + 1]))
  }

  /** Decoding gives back exactly the key that was escaped, whatever characters it holds. */
  lemma EscapeRoundTrip(key: string)
    ensures DecodeToken(EscapeJSONPointer(key)) == key
    ensures Split(EscapeJSONPointer(key), '/') == [EscapeJSONPointer(key)]
  {
    SlashesComeBack(key);
    TildesComeBack(key);
    EscapedHasNoSlash(key);
    SplitWhole(EscapeJSONPointer(key), '/');
  }

  lemma {:induction false} NoTildeNoPair(s: string, second: char, c: char)
    requires '~' !in s
    ensures ReplacePairs(s, '~', second, c) == s
  {
    if |s| >= 2 {
      NoTildeNoPair(s[1..], second, c);
      assert s == [s[0]] + s[1..];
    }
  }

  lemma DecodePlain(s: string)
    requires '~' !in s
    ensures DecodeToken(s) == s
  {
    NoTildeNoPair(s, '1', '/');
    NoTildeNoPair(s, '0', '~');
  }

  /** Appending one more token to a pointer. */
  lemma TokensOfExtension(path: string, token: string)
    requires '/' !in token
    ensures Tokens(path + "/" + token) == Tokens(path) + [DecodeToken(token)]
  {
    SplitConcat(path, token, '/');
    SplitWhole(token, '/');
  }

  /** "/spec/nodeSelector". */
  function SelectorPath(): string { "/" + "spec" + "/" + "nodeSelector" }

  lemma TokensOfTwo(a: string, b: string)
    requires '/' !in a && '~' !in a && '/' !in b && '~' !in b
    ensures Tokens("/" + a + "/" + b) == [a, b]
  {
    DecodePlain(a);
    DecodePlain(b);
    var none := Split("", '/');
    assert |none| == 1;
    TokensOfExtension("", a);
    assert "" + "/" + a == "/" + a;
    TokensOfExtension("/" + a, b);
  }

  lemma SelectorPathTokens()
    ensures Tokens(SelectorPath()) == ["spec", "nodeSelector"]
  {
    TokensOfTwo("spec", "nodeSelector");
  }

  /** For every selector key, the built path names that key below spec and nodeSelector. */
  lemma KeyPathTokens(key: string)
    ensures Tokens(SelectorPath() + "/" + EscapeJSONPointer(key)) == ["spec", "nodeSelector", key]
  {
    SelectorPathTokens();
    EscapeRoundTrip(key);
    EscapedHasNoSlash(key);
    TokensOfExtension(SelectorPath(), EscapeJSONPointer(key));
  }

  // ---- JSON documents and the add operation ----

  /** `OtherValue` stands for numbers, booleans and arrays, which the selector never holds. */
  datatype Json = Null | Str(text: string) | Obj(members: map<string, Json>) | OtherValue(raw: string)

  /** RFC 6902 add on object members: the parent must exist; the member is set or replaced. */
  function AddAt(doc: Json, tokens: seq<string>, value: Json): Option<Json>
    decreases |tokens|
  {
    if |tokens| == 0 then Some(value)
    else if !doc.Obj? then None
    else if |tokens| == 1 then Some(Obj(doc.members[tokens[0] := value]))
    else if tokens[0] !in doc.members then None
    else
      var inner := AddAt(doc.members[tokens[0]], tokens[1..], value);
      if inner.None? then None else Some(Obj(doc.members[tokens[0] := inner.value]))
  }

  datatype Patch = Patch(path: string, value: Json)

  function Apply(doc: Json, patch: Patch): Option<Json> { AddAt(doc, Tokens(patch.path), patch.value) }

  // ---- The pod as the webhook decodes it ----

  type Selector = map<string, string>

  /** A member read as Go's decoder does: absent and null alike leave the zero value. */
  function Member(doc: Json, name: string): Json {
    if doc.Obj? && name in doc.members then doc.members[name] else Null
  }

  predicate IsSelector(j: Json) {
    j.Obj? && forall k :: k in j.members ==> j.members[k].Str? || j.members[k].Null?
  }

  function SelectorOf(j: Json): Selector
    requires IsSelector(j)
  {
    map k | k in j.members :: if j.members[k].Str? then j.members[k].text else ""
  }

  /** The decoded nodeSelector, None inside for a nil map; None outside when decoding fails. */
  function NodeSelector(doc: Json): Option<Option<Selector>> {
    var spec := Member(doc, "spec");
    var selector := Member(spec, "nodeSelector");
    if !(doc.Obj? || doc.Null?) || !(spec.Obj? || spec.Null?) then None
    else if selector.Null? then Some(None)
    else if IsSelector(selector) then Some(Some(SelectorOf(selector)))
    else None
  }

  datatype GpuResource = Nvidia | Amd | Intel

  datatype Container = Container(requests: map<GpuResource, int>, limits: map<GpuResource, int>)

  predicate NonZero(quantities: map<GpuResource, int>, r: GpuResource) {
    r in quantities && quantities[r] != 0
  }

  ghost predicate AsksForGPUs(containers: seq<Container>) {
    exists c, r :: c in containers && (NonZero(c.requests, r) || NonZero(c.limits, r))
  }

  method RequestsGPUs(containers: seq<Container>) returns (yes: bool)
    ensures yes <==> AsksForGPUs(containers)
  {
    var names := [Nvidia, Amd, Intel];
    for i := 0 to |containers|
      invariant forall k, r :: 0 <= k < i ==> !NonZero(containers[k].requests, r) && !NonZero(containers[k].limits, r)
    {
      for j := 0 to |names|
        invariant forall r :: r in names[..j] ==> !NonZero(containers[i].requests, r) && !NonZero(containers[i].limits, r)
      {
        if NonZero(containers[i].requests, names[j]) || NonZero(containers[i].limits, names[j]) { return true; }
      }
      assert names[..|names|] == names;
      forall r: GpuResource ensures r in names { assert r == names[0] || r == names[1] || r == names[2]; }
    }
    return false;
  }

  // ---- The decision ----

  function GPUClassLabel(): string { "gpu.nvidia.com/class" }

  function GetTierGPUClass(tier: string): string {
    var t := ToLower(tier);
    if t == "gold" then "h100" else if t == "silver" then "a100" else if t == "bronze" then "l4" else ""
  }

  /** Gold, silver and bronze, in any case, get H100, A100 and L4; nothing else gets a class. */
  lemma ClassByTier(tier: string)
    ensures GetTierGPUClass(tier) == "h100" <==> SameLetters(tier, "gold")
    ensures GetTierGPUClass(tier) == "a100" <==> SameLetters(tier, "silver")
    ensures GetTierGPUClass(tier) == "l4" <==> SameLetters(tier, "bronze")
    ensures GetTierGPUClass(tier) == "" <==> !SameLetters(tier, "gold") && !SameLetters(tier, "silver") && !SameLetters(tier, "bronze")
  {
    ToLowerFolds(tier, "gold");
    ToLowerFolds(tier, "silver");
    ToLowerFolds(tier, "bronze");
  }

  /** `containers` is what decoding the rest of the document yields, None when that fails; `tierLabel` is the
      namespace's tier label, None when the namespace or the label cannot be read. */
  datatype Request = Request(kind: string, doc: Json, containers: Option<seq<Container>>, tierLabel: Option<string>)

  datatype Response = Denied | Allowed(patch: Option<Patch>)

  function CreateNodeSelectorPatch(selector: Option<Selector>, gpuClass: string): Patch {
    if selector.None? then Patch(SelectorPath(), Obj(map[GPUClassLabel() := Str(gpuClass)]))
    else Patch(SelectorPath() + "/" + EscapeJSONPointer(GPUClassLabel()), Str(gpuClass))
  }

  function GpuClassFor(r: Request): string {
    if r.tierLabel.None? || r.tierLabel.value == "" then "" else GetTierGPUClass(ToLower(r.tierLabel.value))
  }

  ghost function MutateSpec(r: Request): Response {
    var selector := NodeSelector(r.doc);
    if r.kind != "Pod" then Allowed(None)
    else if selector.None? || r.containers.None? then Denied
    else if !AsksForGPUs(r.containers.value) then Allowed(None)
    else if selector.value.Some? && GPUClassLabel() in selector.value.value then Allowed(None)
    else if GpuClassFor(r) == "" then Allowed(None)
    else Allowed(Some(CreateNodeSelectorPatch(selector.value, GpuClassFor(r))))
  }

  /** A pod is denied exactly when it does not decode: the root or the spec is neither an object nor null, the
      selector is neither a null nor an object of strings and nulls, or anything else fails. */
  lemma DeniedExactly(r: Request)
    requires r.kind == "Pod"
    ensures var spec := if r.doc.Obj? && "spec" in r.doc.members then r.doc.members["spec"] else Null;
            var selector := if spec.Obj? && "nodeSelector" in spec.members then spec.members["nodeSelector"] else Null;
            MutateSpec(r).Denied? <==>
              || r.containers.None? || r.doc.Str? || r.doc.OtherValue? || spec.Str? || spec.OtherValue?
              || selector.Str? || selector.OtherValue?
              || (selector.Obj? && exists k :: k in selector.members && (selector.members[k].Obj? || selector.members[k].OtherValue?))
  {
  }

  /** The entries the webhook sees are those of the document, a null read as the empty text. */
  lemma SelectorEntriesRead(doc: Json, k: string)
    requires NodeSelector(doc).Some? && NodeSelector(doc).value.Some?
    ensures doc.Obj? && "spec" in doc.members && doc.members["spec"].Obj? && "nodeSelector" in doc.members["spec"].members
    ensures var selector := doc.members["spec"].members["nodeSelector"];
            && selector.Obj? && (k in NodeSelector(doc).value.value <==> k in selector.members)
            && (k in selector.members ==>
                  selector.members[k] == (if NodeSelector(doc).value.value[k] == "" && selector.members[k].Null? then Null
                                          else Str(NodeSelector(doc).value.value[k])))
  {
  }

  /** A decoded pod is patched exactly when a container names a non-zero amount of a known GPU resource, the
      pod has no class yet, and the namespace's tier label is gold, silver or bronze. */
  lemma PatchedExactly(r: Request)
    requires r.kind == "Pod" && MutateSpec(r).Allowed?
    ensures MutateSpec(r).patch.Some? <==>
              && (exists c, g :: c in r.containers.value && ((g in c.requests && c.requests[g] != 0) || (g in c.limits && c.limits[g] != 0)))
              && !(NodeSelector(r.doc).value.Some? && "gpu.nvidia.com/class" in NodeSelector(r.doc).value.value)
              && r.tierLabel.Some?
              && (SameLetters(r.tierLabel.value, "gold") || SameLetters(r.tierLabel.value, "silver") || SameLetters(r.tierLabel.value, "bronze"))
  {
    AsksOnQuantities(r.containers.value);
    ClassOfRequest(r);
  }

  lemma AsksOnQuantities(containers: seq<Container>)
    ensures AsksForGPUs(containers) <==>
              exists c, g :: c in containers && ((g in c.requests && c.requests[g] != 0) || (g in c.limits && c.limits[g] != 0))
  {
    if c, g :| c in containers && ((g in c.requests && c.requests[g] != 0) || (g in c.limits && c.limits[g] != 0)) {
      assert NonZero(c.requests, g) || NonZero(c.limits, g);
    }
  }

  lemma ClassOfRequest(r: Request)
    ensures GpuClassFor(r) != "" <==>
              && r.tierLabel.Some?
              && (SameLetters(r.tierLabel.value, "gold") || SameLetters(r.tierLabel.value, "silver") || SameLetters(r.tierLabel.value, "bronze"))
  {
    if r.tierLabel.Some? {
      ClassByTier(ToLower(r.tierLabel.value));
      FoldTwice(r.tierLabel.value, "gold");
      FoldTwice(r.tierLabel.value, "silver");
      FoldTwice(r.tierLabel.value, "bronze");
    }
  }

  lemma FoldTwice(s: string, word: string)
    requires LowerCase(word)
    ensures SameLetters(ToLower(s), word) <==> SameLetters(s, word)
  {
    ToLowerFolds(s, word);
    ToLowerFolds(ToLower(s), word);
    assert ToLower(ToLower(s)) == ToLower(s);
  }

  /** A missing request is denied outright. */
  method Mutate(request: Option<Request>) returns (response: Response)
    ensures response == if request.None? then Denied else MutateSpec(request.value)
  {
    if request.None? { return Denied; }
    var r := request.value;
    if r.kind != "Pod" { return Allowed(None); }
    var decoded := NodeSelector(r.doc);
    if decoded.None? || r.containers.None? { return Denied; }
    var gpus := RequestsGPUs(r.containers.value);
    if !gpus { return Allowed(None); }
    if decoded.value.Some? && GPUClassLabel() in decoded.value.value { return Allowed(None); }
    if r.tierLabel.None? || r.tierLabel.value == "" { return Allowed(None); }
    var gpuClass := GetTierGPUClass(ToLower(r.tierLabel.value));
    if gpuClass == "" { return Allowed(None); }
    response := Allowed(Some(CreateNodeSelectorPatch(decoded.value, gpuClass)));
  }

  // ---- What a patch does to the pod ----

  /** Decoding found containers only if the document has a spec object. */
  ghost predicate WellDecoded(r: Request) {
    r.containers.Some? && |r.containers.value| > 0 ==> r.doc.Obj? && Member(r.doc, "spec").Obj?
  }

  /** The selector entries before, none for a nil map. */
  function Entries(doc: Json): Selector
    requires NodeSelector(doc).Some?
  {
    if NodeSelector(doc).value.Some? then NodeSelector(doc).value.value else map[]
  }

  function WithSelector(doc: Json, selector: Json): Json
    requires doc.Obj? && Member(doc, "spec").Obj?
  {
    Obj(doc.members["spec" := Obj(Member(doc, "spec").members["nodeSelector" := selector])])
  }

  lemma AddSelector(doc: Json, value: Json)
    requires doc.Obj? && Member(doc, "spec").Obj?
    ensures AddAt(doc, ["spec", "nodeSelector"], value) == Some(WithSelector(doc, value))
  {
  }

  lemma AddSelectorEntry(doc: Json, key: string, value: Json)
    requires doc.Obj? && Member(doc, "spec").Obj? && Member(Member(doc, "spec"), "nodeSelector").Obj?
    ensures AddAt(doc, ["spec", "nodeSelector", key], value) ==
            Some(WithSelector(doc, Obj(Member(Member(doc, "spec"), "nodeSelector").members[key := value])))
  {
    var spec := doc.members["spec"];
    var selector := spec.members["nodeSelector"];
    var t := ["spec", "nodeSelector", key];
    assert t[1..][1..] == [key] && t[1..][0] == "nodeSelector";
    assert AddAt(selector, t[1..][1..], value) == Some(Obj(selector.members[key := value]));
    assert AddAt(spec, t[1..], value) == Some(Obj(spec.members["nodeSelector" := Obj(selector.members[key := value])]));
  }

  lemma SelectorOfWith(doc: Json, selector: Json)
    requires doc.Obj? && Member(doc, "spec").Obj? && IsSelector(selector)
    ensures NodeSelector(WithSelector(doc, selector)) == Some(Some(SelectorOf(selector)))
  {
  }

  lemma NilSelectorPatch(doc: Json, gpuClass: string)
    requires doc.Obj? && Member(doc, "spec").Obj?
    ensures Apply(doc, CreateNodeSelectorPatch(None, gpuClass)) ==
            Some(WithSelector(doc, Obj(map[GPUClassLabel() := Str(gpuClass)])))
  {
    SelectorPathTokens();
    AddSelector(doc, Obj(map[GPUClassLabel() := Str(gpuClass)]));
  }

  lemma ExistingSelectorPatch(doc: Json, entries: Selector, gpuClass: string)
    requires doc.Obj? && Member(doc, "spec").Obj? && Member(Member(doc, "spec"), "nodeSelector").Obj?
    ensures Apply(doc, CreateNodeSelectorPatch(Some(entries), gpuClass)) ==
            Some(WithSelector(doc, Obj(Member(Member(doc, "spec"), "nodeSelector").members[GPUClassLabel() := Str(gpuClass)])))
  {
    KeyPathTokens(GPUClassLabel());
    AddSelectorEntry(doc, GPUClassLabel(), Str(gpuClass));
  }

  lemma SelectorWithEntry(j: Json, key: string, text: string)
    requires IsSelector(j)
    ensures IsSelector(Obj(j.members[key := Str(text)]))
    ensures SelectorOf(Obj(j.members[key := Str(text)])) == SelectorOf(j)[key := text]
  {
  }

  /** The node selector the patched document holds. */
  function PatchedSelector(doc: Json, gpuClass: string): Json {
    var selector := Member(Member(doc, "spec"), "nodeSelector");
    Obj((if selector.Obj? then selector.members else map[])[GPUClassLabel() := Str(gpuClass)])
  }

  lemma PatchApplies(doc: Json, gpuClass: string)
    requires NodeSelector(doc).Some? && doc.Obj? && Member(doc, "spec").Obj?
    ensures Apply(doc, CreateNodeSelectorPatch(NodeSelector(doc).value, gpuClass)) ==
            Some(WithSelector(doc, PatchedSelector(doc, gpuClass)))
    ensures IsSelector(PatchedSelector(doc, gpuClass))
    ensures SelectorOf(PatchedSelector(doc, gpuClass)) == Entries(doc)[GPUClassLabel() := gpuClass]
  {
    var selector := Member(Member(doc, "spec"), "nodeSelector");
    if selector.Null? {
      NilSelectorPatch(doc, gpuClass);
      var none: map<string, Json> := map[];
      SelectorWithEntry(Obj(none), GPUClassLabel(), gpuClass);
      assert SelectorOf(Obj(none)) == map[];
    } else {
      ExistingSelectorPatch(doc, SelectorOf(selector), gpuClass);
      SelectorWithEntry(selector, GPUClassLabel(), gpuClass);
    }
  }

  /** Whenever mutate returns a patch, the patch applies, changes nothing but the node selector, adds to
      it the GPU class alone and keeps every other entry; and mutating the result yields no patch. */
  lemma PatchAddsOnlyTheClass(r: Request)
    requires WellDecoded(r) && MutateSpec(r).Allowed? && MutateSpec(r).patch.Some?
    ensures r.doc.Obj? && Member(r.doc, "spec").Obj? && NodeSelector(r.doc).Some?
    ensures var doc' := WithSelector(r.doc, PatchedSelector(r.doc, GpuClassFor(r)));
            && Apply(r.doc, MutateSpec(r).patch.value) == Some(doc')
            && NodeSelector(doc') == Some(Some(Entries(r.doc)[GPUClassLabel() := GpuClassFor(r)]))
            && MutateSpec(r.(doc := doc')) == Allowed(None)
  {
    PatchedHasSpec(r);
    PatchApplies(r.doc, GpuClassFor(r));
    SelectorOfWith(r.doc, PatchedSelector(r.doc, GpuClassFor(r)));
    ClassIsKept(r, WithSelector(r.doc, PatchedSelector(r.doc, GpuClassFor(r))));
  }

  lemma PatchedHasSpec(r: Request)
    requires WellDecoded(r) && MutateSpec(r).Allowed? && MutateSpec(r).patch.Some?
    ensures r.doc.Obj? && Member(r.doc, "spec").Obj? && NodeSelector(r.doc).Some?
    ensures MutateSpec(r).patch.value == CreateNodeSelectorPatch(NodeSelector(r.doc).value, GpuClassFor(r))
  {
    var c, g :| c in r.containers.value && (NonZero(c.requests, g) || NonZero(c.limits, g));
  }

  /** A pod that has a class by now is let through as it is. */
  lemma ClassIsKept(r: Request, doc': Json)
    requires MutateSpec(r).Allowed? && MutateSpec(r).patch.Some?
    requires NodeSelector(doc').Some? && NodeSelector(doc').value.Some? && GPUClassLabel() in NodeSelector(doc').value.value
    ensures MutateSpec(r.(doc := doc')) == Allowed(None)
  {
  }
}
