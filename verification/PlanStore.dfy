/** Saved plans keep signed URLs out of the plan file: the plan holds
    references, a sidecar holds the URLs (src/colab_cli/job/store.py), and
    the plan's hash ignores the difference (src/colab_cli/job/spec_io.py). */
module PlanStore {
  import opened Options
  import opened Results
  import opened Urls

  datatype Json =
    | Null
    | Bool(value: bool)
    | Num(number: int)
    | Str(text: string)
    | Arr(items: Items)
    | Obj(fields: Fields)

  datatype Items = NoItems | Item(head: Json, rest: Items)

  datatype Fields = NoFields | Field(name: string, value: Json, rest: Fields)

  /** The key a value stands under; a list's items stand under the list's. */
  type Key = Option<string>

  predicate EndsWith(s: string, suffix: string) {
    |suffix| <= |s| && s[|s| - |suffix|..] == suffix
  }

  /** `_url_field`. */
  predicate UrlField(key: Key) {
    key.Some? && (key.value == "url" || EndsWith(key.value, "_url"))
  }

  // -- what a document says about its URL fields --------------------------------

  /** The signed URLs in URL fields. */
  function Signed(t: Json, key: Key, p: Platform): set<string> {
    match t
    case Str(s) => if UrlField(key) && HasQuery(s, p) then {s} else {}
    case Arr(items) => SignedItems(items, key, p)
    case Obj(fields) => SignedFields(fields, p)
    case _ => {}
  }

  function SignedItems(items: Items, key: Key, p: Platform): set<string> {
    if items.NoItems? then {} else Signed(items.head, key, p) + SignedItems(items.rest, key, p)
  }

  function SignedFields(fields: Fields, p: Platform): set<string> {
    if fields.NoFields? then {} else Signed(fields.value, Some(fields.name), p) + SignedFields(fields.rest, p)
  }

  /** `_marker_set`: the references in URL fields. */
  function Markers(t: Json, key: Key, p: Platform): set<string> {
    match t
    case Str(s) => if UrlField(key) && IsRedacted(s, p) then {s} else {}
    case Arr(items) => MarkersItems(items, key, p)
    case Obj(fields) => MarkersFields(fields, p)
    case _ => {}
  }

  function MarkersItems(items: Items, key: Key, p: Platform): set<string> {
    if items.NoItems? then {} else Markers(items.head, key, p) + MarkersItems(items.rest, key, p)
  }

  function MarkersFields(fields: Fields, p: Platform): set<string> {
    if fields.NoFields? then {} else Markers(fields.value, Some(fields.name), p) + MarkersFields(fields.rest, p)
  }

  // -- redaction ------------------------------------------------------------------

  /** The document with every signed URL in a URL field replaced by its
      reference. */
  function Redact(t: Json, key: Key, p: Platform): Json {
    match t
    case Str(s) => if UrlField(key) && HasQuery(s, p) then Str(Redacted(s, p)) else t
    case Arr(items) => Arr(RedactItems(items, key, p))
    case Obj(fields) => Obj(RedactFields(fields, p))
    case _ => t
  }

  function RedactItems(items: Items, key: Key, p: Platform): Items {
    if items.NoItems? then NoItems else Item(Redact(items.head, key, p), RedactItems(items.rest, key, p))
  }

  function RedactFields(fields: Fields, p: Platform): Fields {
    if fields.NoFields? then NoFields
    else Field(fields.name, Redact(fields.value, Some(fields.name), p), RedactFields(fields.rest, p))
  }

  /** Each reference's URL; a later URL under the same reference wins. */
  function Secrets(t: Json, key: Key, p: Platform): map<string, string> {
    match t
    case Str(s) => if UrlField(key) && HasQuery(s, p) then map[Redacted(s, p) := s] else map[]
    case Arr(items) => SecretsItems(items, key, p)
    case Obj(fields) => SecretsFields(fields, p)
    case _ => map[]
  }

  function SecretsItems(items: Items, key: Key, p: Platform): map<string, string> {
    if items.NoItems? then map[] else Secrets(items.head, key, p) + SecretsItems(items.rest, key, p)
  }

  function SecretsFields(fields: Fields, p: Platform): map<string, string> {
    if fields.NoFields? then map[]
    else Secrets(fields.value, Some(fields.name), p) + SecretsFields(fields.rest, p)
  }

  lemma SignedTextRedacts(s: string, key: Key, p: Platform)
    requires UrlField(key) && HasQuery(s, p)
    ensures Redact(Str(s), key, p) == Str(Redacted(s, p)) && Secrets(Str(s), key, p) == map[Redacted(s, p) := s]
  {
  }

  lemma MergeAssociates(a: map<string, string>, b: map<string, string>, c: map<string, string>)
    ensures (a + b) + c == a + (b + c)
  {
  }

  /** `_redact`: one walk that rewrites the document and fills the dictionary. */
  class Redactor {
    const p: Platform
    var secrets: map<string, string>

    constructor (p: Platform)
      ensures this.p == p && secrets == map[]
    {
      this.p, secrets := p, map[];
    }

    method Walk(t: Json, key: Key) returns (r: Json)
      modifies this
      ensures r == Redact(t, key, p) && secrets == old(secrets) + Secrets(t, key, p)
      decreases t
    {
      r := t;
      match t {
        case Str(s) =>
          r := WalkText(s, key);
        case Arr(items) =>
          var walked := WalkItems(items, key);
          r := Arr(walked);
        case Obj(fields) =>
          var walked := WalkFields(fields);
          r := Obj(walked);
        case _ =>
      }
    }

    method WalkText(s: string, key: Key) returns (r: Json)
      modifies this
      ensures r == Redact(Str(s), key, p) && secrets == old(secrets) + Secrets(Str(s), key, p)
    {
      r := Str(s);
      if UrlField(key) && HasQuery(s, p) {
        SignedTextRedacts(s, key, p);
        r := Record(s);
      }
    }

    method Record(s: string) returns (r: Json)
      modifies this
      ensures r == Str(Redacted(s, p)) && secrets == old(secrets) + map[Redacted(s, p) := s]
    {
      var marker := Redacted(s, p);
      secrets := secrets[marker := s];
      r := Str(marker);
    }

    method WalkItems(items: Items, key: Key) returns (r: Items)
      modifies this
      ensures r == RedactItems(items, key, p) && secrets == old(secrets) + SecretsItems(items, key, p)
      decreases items
    {
      r := NoItems;
      if items.Item? {
        ghost var before := secrets;
        var head := Walk(items.head, key);
        var rest := WalkItems(items.rest, key);
        r := Item(head, rest);
        MergeAssociates(before, Secrets(items.head, key, p), SecretsItems(items.rest, key, p));
      }
    }

    method WalkFields(fields: Fields) returns (r: Fields)
      modifies this
      ensures r == RedactFields(fields, p) && secrets == old(secrets) + SecretsFields(fields, p)
      decreases fields
    {
      r := NoFields;
      if fields.Field? {
        ghost var before := secrets;
        var value := Walk(fields.value, Some(fields.name));
        var rest := WalkFields(fields.rest);
        r := Field(fields.name, value, rest);
        MergeAssociates(before, Secrets(fields.value, Some(fields.name), p), SecretsFields(fields.rest, p));
      }
    }
  }

  // -- hydration ------------------------------------------------------------------

  /** `_hydrate`: a reference without its URL, or a signed URL in the plan
      file itself, refuses the whole plan. */
  function Hydrate(t: Json, secrets: map<string, string>, key: Key, p: Platform): Result<Json> {
    match t
    case Str(s) =>
      if !UrlField(key) then Ok(t)
      else if IsRedacted(s, p) then (if s in secrets then Ok(Str(secrets[s])) else Refused)
      else if HasQuery(s, p) then Refused
      else Ok(t)
    case Arr(items) =>
      var r := HydrateItems(items, secrets, key, p);
      if r.Ok? then Ok(Arr(r.value)) else Refused
    case Obj(fields) =>
      var r := HydrateFields(fields, secrets, p);
      if r.Ok? then Ok(Obj(r.value)) else Refused
    case _ => Ok(t)
  }

  function HydrateItems(items: Items, secrets: map<string, string>, key: Key, p: Platform): Result<Items> {
    if items.NoItems? then Ok(NoItems)
    else
      var head := Hydrate(items.head, secrets, key, p);
      var rest := HydrateItems(items.rest, secrets, key, p);
      if head.Ok? && rest.Ok? then Ok(Item(head.value, rest.value)) else Refused
  }

  function HydrateFields(fields: Fields, secrets: map<string, string>, p: Platform): Result<Fields> {
    if fields.NoFields? then Ok(NoFields)
    else
      var value := Hydrate(fields.value, secrets, Some(fields.name), p);
      var rest := HydrateFields(fields.rest, secrets, p);
      if value.Ok? && rest.Ok? then Ok(Field(fields.name, value.value, rest.value)) else Refused
  }

  // -- the identity a plan's hash is taken of ---------------------------------------

  function UrlIdentity(identity: string, credential: bool): Json {
    Obj(Field("identity", Str(identity), Field("credential_required", Bool(credential), NoFields)))
  }

  /** `_canonicalize`. */
  function Canonicalize(t: Json, key: Key, p: Platform): Json {
    match t
    case Str(s) =>
      if UrlField(key) then UrlIdentity(Canonical(s, p), HasQuery(s, p) || IsRedacted(s, p)) else t
    case Arr(items) => Arr(CanonicalizeItems(items, key, p))
    case Obj(fields) => Obj(CanonicalizeFields(fields, p))
    case _ => t
  }

  function CanonicalizeItems(items: Items, key: Key, p: Platform): Items {
    if items.NoItems? then NoItems else Item(Canonicalize(items.head, key, p), CanonicalizeItems(items.rest, key, p))
  }

  function CanonicalizeFields(fields: Fields, p: Platform): Fields {
    if fields.NoFields? then NoFields
    else Field(fields.name, Canonicalize(fields.value, Some(fields.name), p), CanonicalizeFields(fields.rest, p))
  }

  // -- redaction and hydration undo each other ----------------------------------------

  /** Every signed URL is one whose reference is recognised. */
  predicate AllRecognisable(urls: set<string>, p: Platform) {
    forall u | u in urls :: Recognisable(u, p)
  }

  /** Every signed URL is one whose reference has its identity. */
  predicate AllKeepIdentity(urls: set<string>, p: Platform) {
    forall u | u in urls :: KeepsIdentity(u, p)
  }

  /** `secrets` has every URL of `urls` with a reference that is recognised
      under that reference. */
  predicate Covers(secrets: map<string, string>, urls: set<string>, p: Platform) {
    forall u | u in urls && Recognisable(u, p) :: Redacted(u, p) in secrets && secrets[Redacted(u, p)] == u
  }

  /** A reference has no query, so it is never itself a signed URL. */
  lemma ReferenceIsNotSigned(s: string, p: Platform)
    requires IsRedacted(s, p)
    ensures !HasQuery(s, p)
  {
  }

  lemma ReferenceFacts(u: string, p: Platform)
    requires Hashes(p)
    ensures (IsRedacted(Redacted(u, p), p) <==> Recognisable(u, p)) && !HasQuery(Redacted(u, p), p)
  {
    ReferenceRecognisedIff(u, p);
    ReferenceIsSilent(u, p);
  }

  lemma HydrateUndoesText(s: string, key: Key, secrets: map<string, string>, p: Platform)
    requires Hashes(p) && Covers(secrets, Signed(Str(s), key, p), p)
    requires forall m | m in secrets :: HasQuery(secrets[m], p)
    ensures
      Hydrate(Redact(Str(s), key, p), secrets, key, p) == Ok(Str(s))
      <==> Markers(Str(s), key, p) == {} && AllRecognisable(Signed(Str(s), key, p), p)
  {
    if UrlField(key) && IsRedacted(s, p) {
      ReferenceIsNotSigned(s, p);
      assert s in Markers(Str(s), key, p);
    } else if UrlField(key) && HasQuery(s, p) {
      SignedTextFacts(s, key, p);
      SignedTextRedacts(s, key, p);
      ReferenceFacts(s, p);
      ReferenceHydrates(s, Redacted(s, p), key, secrets, p);
    }
  }

  lemma SignedTextFacts(s: string, key: Key, p: Platform)
    requires UrlField(key) && HasQuery(s, p)
    ensures Signed(Str(s), key, p) == {s} && Markers(Str(s), key, p) == {}
  {
    if IsRedacted(s, p) {
      ReferenceIsNotSigned(s, p);
    }
  }

  /** A reference hydrates to its URL when it is recognised, and to itself
      otherwise. */
  lemma ReferenceHydrates(s: string, r: string, key: Key, secrets: map<string, string>, p: Platform)
    requires UrlField(key) && HasQuery(s, p) && !HasQuery(r, p)
    requires IsRedacted(r, p) ==> r in secrets && secrets[r] == s
    ensures Hydrate(Str(r), secrets, key, p) == Ok(Str(if IsRedacted(r, p) then s else r)) && r != s
  {
  }

  /** Over any dictionary of signed URLs that has what can be looked up in it,
      hydration gives a redacted document back exactly when it held no
      references of its own and each of its signed URLs has one that is
      recognised. */
  lemma {:induction false} HydrateUndoes(t: Json, key: Key, secrets: map<string, string>, p: Platform)
    requires Hashes(p) && Covers(secrets, Signed(t, key, p), p)
    requires forall m | m in secrets :: HasQuery(secrets[m], p)
    ensures
      Hydrate(Redact(t, key, p), secrets, key, p) == Ok(t)
      <==> Markers(t, key, p) == {} && AllRecognisable(Signed(t, key, p), p)
    decreases t
  {
    match t {
      case Str(s) => HydrateUndoesText(s, key, secrets, p);
      case Arr(items) => HydrateUndoesItems(items, key, secrets, p);
      case Obj(fields) => HydrateUndoesFields(fields, secrets, p);
      case _ =>
    }
  }

  lemma {:induction false} HydrateUndoesItems(items: Items, key: Key, secrets: map<string, string>, p: Platform)
    requires Hashes(p) && Covers(secrets, SignedItems(items, key, p), p)
    requires forall m | m in secrets :: HasQuery(secrets[m], p)
    ensures
      HydrateItems(RedactItems(items, key, p), secrets, key, p) == Ok(items)
      <==> MarkersItems(items, key, p) == {} && AllRecognisable(SignedItems(items, key, p), p)
    decreases items
  {
    if items.Item? {
      HydrateUndoes(items.head, key, secrets, p);
      HydrateUndoesItems(items.rest, key, secrets, p);
    }
  }

  lemma {:induction false} HydrateUndoesFields(fields: Fields, secrets: map<string, string>, p: Platform)
    requires Hashes(p) && Covers(secrets, SignedFields(fields, p), p)
    requires forall m | m in secrets :: HasQuery(secrets[m], p)
    ensures
      HydrateFields(RedactFields(fields, p), secrets, p) == Ok(fields)
      <==> MarkersFields(fields, p) == {} && AllRecognisable(SignedFields(fields, p), p)
    decreases fields
  {
    if fields.Field? {
      HydrateUndoes(fields.value, Some(fields.name), secrets, p);
      HydrateUndoesFields(fields.rest, secrets, p);
    }
  }

  // -- what loading gives where a reference is not recognised ------------------------------

  /** The document with the signed URLs nothing recognises the references of
      replaced by those references. */
  function Lossy(t: Json, key: Key, p: Platform): Json {
    match t
    case Str(s) => if UrlField(key) && HasQuery(s, p) && !Recognisable(s, p) then Str(Redacted(s, p)) else t
    case Arr(items) => Arr(LossyItems(items, key, p))
    case Obj(fields) => Obj(LossyFields(fields, p))
    case _ => t
  }

  function LossyItems(items: Items, key: Key, p: Platform): Items {
    if items.NoItems? then NoItems else Item(Lossy(items.head, key, p), LossyItems(items.rest, key, p))
  }

  function LossyFields(fields: Fields, p: Platform): Fields {
    if fields.NoFields? then NoFields
    else Field(fields.name, Lossy(fields.value, Some(fields.name), p), LossyFields(fields.rest, p))
  }

  lemma HydrateGivesText(s: string, key: Key, secrets: map<string, string>, p: Platform)
    requires Hashes(p) && Covers(secrets, Signed(Str(s), key, p), p) && Markers(Str(s), key, p) == {}
    ensures Hydrate(Redact(Str(s), key, p), secrets, key, p) == Ok(Lossy(Str(s), key, p))
    ensures Lossy(Str(s), key, p) == Str(s) <==> AllRecognisable(Signed(Str(s), key, p), p)
  {
    if UrlField(key) && HasQuery(s, p) {
      SignedTextFacts(s, key, p);
      SignedTextRedacts(s, key, p);
      ReferenceFacts(s, p);
      ReferenceHydrates(s, Redacted(s, p), key, secrets, p);
    } else if UrlField(key) {
      assert s !in Markers(Str(s), key, p);
    }
  }

  /** A redacted document without references of its own hydrates to the
      document with those replacements, which are none exactly when every
      reference is recognised. */
  lemma {:induction false} HydrateGives(t: Json, key: Key, secrets: map<string, string>, p: Platform)
    requires Hashes(p) && Covers(secrets, Signed(t, key, p), p) && Markers(t, key, p) == {}
    ensures Hydrate(Redact(t, key, p), secrets, key, p) == Ok(Lossy(t, key, p))
    ensures Lossy(t, key, p) == t <==> AllRecognisable(Signed(t, key, p), p)
    decreases t
  {
    match t {
      case Str(s) => HydrateGivesText(s, key, secrets, p);
      case Arr(items) => HydrateGivesItems(items, key, secrets, p);
      case Obj(fields) => HydrateGivesFields(fields, secrets, p);
      case _ =>
    }
  }

  lemma {:induction false} HydrateGivesItems(items: Items, key: Key, secrets: map<string, string>, p: Platform)
    requires Hashes(p) && Covers(secrets, SignedItems(items, key, p), p) && MarkersItems(items, key, p) == {}
    ensures HydrateItems(RedactItems(items, key, p), secrets, key, p) == Ok(LossyItems(items, key, p))
    ensures LossyItems(items, key, p) == items <==> AllRecognisable(SignedItems(items, key, p), p)
    decreases items
  {
    if items.Item? {
      HydrateGives(items.head, key, secrets, p);
      HydrateGivesItems(items.rest, key, secrets, p);
    }
  }

  lemma {:induction false} HydrateGivesFields(fields: Fields, secrets: map<string, string>, p: Platform)
    requires Hashes(p) && Covers(secrets, SignedFields(fields, p), p) && MarkersFields(fields, p) == {}
    ensures HydrateFields(RedactFields(fields, p), secrets, p) == Ok(LossyFields(fields, p))
    ensures LossyFields(fields, p) == fields <==> AllRecognisable(SignedFields(fields, p), p)
    decreases fields
  {
    if fields.Field? {
      HydrateGives(fields.value, Some(fields.name), secrets, p);
      HydrateGivesFields(fields.rest, secrets, p);
    }
  }

  // -- what redaction keeps ------------------------------------------------------------------

  /** The dictionary holds exactly the references of the signed URLs, each
      with a URL it is the reference of. */
  predicate Pairs(secrets: map<string, string>, urls: set<string>, p: Platform) {
    && (forall m | m in secrets :: secrets[m] in urls && Redacted(secrets[m], p) == m)
    && (forall u | u in urls :: Redacted(u, p) in secrets)
  }

  lemma PairsMerge(a: map<string, string>, us: set<string>, b: map<string, string>, vs: set<string>, p: Platform)
    requires Pairs(a, us, p) && Pairs(b, vs, p)
    ensures Pairs(a + b, us + vs, p)
  {
    var both := a + b;
    forall m | m in both ensures both[m] in us + vs && Redacted(both[m], p) == m {
      assert both[m] == if m in b then b[m] else a[m];
    }
    forall u | u in us + vs ensures Redacted(u, p) in both {
    }
  }

  lemma SecretsPairText(s: string, key: Key, p: Platform)
    ensures Pairs(Secrets(Str(s), key, p), Signed(Str(s), key, p), p)
  {
    if UrlField(key) && HasQuery(s, p) {
      SignedTextRedacts(s, key, p);
      assert Signed(Str(s), key, p) == {s};
    }
  }

  lemma {:induction false} SecretsPair(t: Json, key: Key, p: Platform)
    ensures Pairs(Secrets(t, key, p), Signed(t, key, p), p)
    decreases t
  {
    match t {
      case Str(s) => SecretsPairText(s, key, p);
      case Arr(items) => SecretsPairItems(items, key, p);
      case Obj(fields) => SecretsPairFields(fields, p);
      case _ =>
    }
  }

  lemma {:induction false} SecretsPairItems(items: Items, key: Key, p: Platform)
    ensures Pairs(SecretsItems(items, key, p), SignedItems(items, key, p), p)
    decreases items
  {
    if items.Item? {
      SecretsPair(items.head, key, p);
      SecretsPairItems(items.rest, key, p);
      PairsMerge(Secrets(items.head, key, p), Signed(items.head, key, p),
                 SecretsItems(items.rest, key, p), SignedItems(items.rest, key, p), p);
    }
  }

  lemma {:induction false} SecretsPairFields(fields: Fields, p: Platform)
    ensures Pairs(SecretsFields(fields, p), SignedFields(fields, p), p)
    decreases fields
  {
    if fields.Field? {
      var key := Some(fields.name);
      SecretsPair(fields.value, key, p);
      SecretsPairFields(fields.rest, p);
      PairsMerge(Secrets(fields.value, key, p), Signed(fields.value, key, p),
                 SecretsFields(fields.rest, p), SignedFields(fields.rest, p), p);
    }
  }

  function References(urls: set<string>, p: Platform): set<string> {
    set u | u in urls :: Redacted(u, p)
  }

  /** The URLs whose references are recognised. */
  function Known(urls: set<string>, p: Platform): set<string> {
    set u | u in urls && Recognisable(u, p)
  }

  lemma KnownMerge(us: set<string>, vs: set<string>, p: Platform)
    ensures References(Known(us + vs, p), p) == References(Known(us, p), p) + References(Known(vs, p), p)
  {
  }

  lemma NothingKnown(p: Platform)
    ensures References(Known({}, p), p) == {}
  {
  }

  lemma TextRedacts(s: string, key: Key, p: Platform)
    requires Hashes(p)
    ensures
      var r := Redact(Str(s), key, p);
      && Signed(r, key, p) == {}
      && Markers(r, key, p) == Markers(Str(s), key, p) + References(Known(Signed(Str(s), key, p), p), p)
  {
    if UrlField(key) && HasQuery(s, p) {
      SignedTextFacts(s, key, p);
      SignedTextRedacts(s, key, p);
      ReferenceMarks(s, key, p);
      KnownOne(s, p);
    } else {
      NothingKnown(p);
    }
  }

  lemma ReferenceMarks(u: string, key: Key, p: Platform)
    requires UrlField(key) && Hashes(p)
    ensures Signed(Str(Redacted(u, p)), key, p) == {}
    ensures Markers(Str(Redacted(u, p)), key, p) == if Recognisable(u, p) then {Redacted(u, p)} else {}
  {
    ReferenceFacts(u, p);
  }

  lemma KnownOne(u: string, p: Platform)
    ensures References(Known({u}, p), p) == if Recognisable(u, p) then {Redacted(u, p)} else {}
  {
    assert Known({u}, p) == if Recognisable(u, p) then {u} else {};
  }

  /** A redacted document has no signed URL in a URL field, and as references
      those it had and the recognised ones of its signed URLs. */
  lemma {:induction false} RedactKeeps(t: Json, key: Key, p: Platform)
    requires Hashes(p)
    ensures
      var r := Redact(t, key, p);
      && Signed(r, key, p) == {}
      && Markers(r, key, p) == Markers(t, key, p) + References(Known(Signed(t, key, p), p), p)
    decreases t
  {
    match t {
      case Str(s) => TextRedacts(s, key, p);
      case Arr(items) => RedactKeepsItems(items, key, p);
      case Obj(fields) => RedactKeepsFields(fields, p);
      case _ => NothingKnown(p);
    }
  }

  lemma {:induction false} RedactKeepsItems(items: Items, key: Key, p: Platform)
    requires Hashes(p)
    ensures
      var r := RedactItems(items, key, p);
      && SignedItems(r, key, p) == {}
      && MarkersItems(r, key, p) == MarkersItems(items, key, p) + References(Known(SignedItems(items, key, p), p), p)
    decreases items
  {
    if items.Item? {
      RedactKeeps(items.head, key, p);
      RedactKeepsItems(items.rest, key, p);
      KnownMerge(Signed(items.head, key, p), SignedItems(items.rest, key, p), p);
    } else {
      NothingKnown(p);
    }
  }

  lemma {:induction false} RedactKeepsFields(fields: Fields, p: Platform)
    requires Hashes(p)
    ensures
      var r := RedactFields(fields, p);
      && SignedFields(r, p) == {}
      && MarkersFields(r, p) == MarkersFields(fields, p) + References(Known(SignedFields(fields, p), p), p)
    decreases fields
  {
    if fields.Field? {
      RedactKeeps(fields.value, Some(fields.name), p);
      RedactKeepsFields(fields.rest, p);
      KnownMerge(Signed(fields.value, Some(fields.name), p), SignedFields(fields.rest, p), p);
    } else {
      NothingKnown(p);
    }
  }

  lemma TextIdentityIff(s: string, key: Key, p: Platform)
    requires Hashes(p)
    ensures
      Canonicalize(Redact(Str(s), key, p), key, p) == Canonicalize(Str(s), key, p)
      <==> AllKeepIdentity(Signed(Str(s), key, p), p)
  {
    if UrlField(key) && HasQuery(s, p) {
      SignedTextFacts(s, key, p);
      SignedTextRedacts(s, key, p);
      ReferenceIsSilent(s, p);
      ReferenceKeepsIdentityIff(s, p);
      SameIdentityIff(s, Redacted(s, p), key, p);
    }
  }

  lemma SameIdentityIff(s: string, r: string, key: Key, p: Platform)
    requires UrlField(key) && HasQuery(s, p) && !HasQuery(r, p)
    ensures
      Canonicalize(Str(r), key, p) == Canonicalize(Str(s), key, p)
      <==> IsRedacted(r, p) && Canonical(r, p) == Canonical(s, p)
  {
  }

  /** Redaction leaves a document's identity unchanged exactly when the
      reference of each of its signed URLs has that URL's. */
  lemma {:induction false} IdentityKeptIff(t: Json, key: Key, p: Platform)
    requires Hashes(p)
    ensures
      Canonicalize(Redact(t, key, p), key, p) == Canonicalize(t, key, p)
      <==> AllKeepIdentity(Signed(t, key, p), p)
    decreases t
  {
    match t {
      case Str(s) => TextIdentityIff(s, key, p);
      case Arr(items) => IdentityKeptItems(items, key, p);
      case Obj(fields) => IdentityKeptFields(fields, p);
      case _ =>
    }
  }

  lemma {:induction false} IdentityKeptItems(items: Items, key: Key, p: Platform)
    requires Hashes(p)
    ensures
      CanonicalizeItems(RedactItems(items, key, p), key, p) == CanonicalizeItems(items, key, p)
      <==> AllKeepIdentity(SignedItems(items, key, p), p)
    decreases items
  {
    if items.Item? {
      IdentityKeptIff(items.head, key, p);
      IdentityKeptItems(items.rest, key, p);
    }
  }

  lemma {:induction false} IdentityKeptFields(fields: Fields, p: Platform)
    requires Hashes(p)
    ensures
      CanonicalizeFields(RedactFields(fields, p), p) == CanonicalizeFields(fields, p)
      <==> AllKeepIdentity(SignedFields(fields, p), p)
    decreases fields
  {
    if fields.Field? {
      IdentityKeptIff(fields.value, Some(fields.name), p);
      IdentityKeptFields(fields.rest, p);
    }
  }

  /** `plan_hash`, over any hash of the spec's identity and the manifest. */
  function PlanHash<M>(hash: (Json, M) -> string, spec: Json, manifest: M, p: Platform): string {
    hash(Canonicalize(spec, None, p), manifest)
  }

  /** No two identities share a hash beside this manifest. */
  ghost predicate HashesApart<M(!new)>(hash: (Json, M) -> string, manifest: M) {
    forall a, b :: hash(a, manifest) == hash(b, manifest) ==> a == b
  }

  /** A saved plan hashes like the plan when every reference has the identity
      of its URL; and only then, unless two identities share a hash. */
  lemma SavedPlanHashes<M(!new)>(hash: (Json, M) -> string, spec: Json, manifest: M, p: Platform)
    requires Hashes(p)
    ensures
      AllKeepIdentity(Signed(spec, None, p), p) ==>
        PlanHash(hash, Redact(spec, None, p), manifest, p) == PlanHash(hash, spec, manifest, p)
    ensures
      HashesApart(hash, manifest) ==>
        (PlanHash(hash, Redact(spec, None, p), manifest, p) == PlanHash(hash, spec, manifest, p)
         <==> AllKeepIdentity(Signed(spec, None, p), p))
  {
    IdentityKeptIff(spec, None, p);
  }

  /** Hydration gives a document back exactly when it held no references of
      its own before redaction and each of its signed URLs has a reference
      that is recognised: given that no two of them share one. */
  lemma RoundTripsIff(t: Json, p: Platform)
    requires Hashes(p)
    requires forall u, v | u in Signed(t, None, p) && v in Signed(t, None, p) ::
               Redacted(u, p) == Redacted(v, p) ==> u == v
    ensures
      Hydrate(Redact(t, None, p), Secrets(t, None, p), None, p) == Ok(t)
      <==> Markers(t, None, p) == {} && AllRecognisable(Signed(t, None, p), p)
    ensures
      Markers(t, None, p) == {} && AllRecognisable(Signed(t, None, p), p) ==>
        Markers(Redact(t, None, p), None, p) == Secrets(t, None, p).Keys
  {
    var urls := Signed(t, None, p);
    var own := Secrets(t, None, p);
    SecretsPair(t, None, p);
    SignedHaveQueries(t, None, p);
    forall u | u in urls ensures own[Redacted(u, p)] == u {
      assert own[Redacted(u, p)] in urls;
    }
    HydrateUndoes(t, None, own, p);
    RedactKeeps(t, None, p);
    KeysAreReferences(own, urls, p);
    if AllRecognisable(urls, p) {
      assert Known(urls, p) == urls;
    }
  }

  lemma KeysAreReferences(own: map<string, string>, urls: set<string>, p: Platform)
    requires Pairs(own, urls, p)
    ensures own.Keys == References(urls, p)
  {
  }

  // -- the plan file and its sidecar -----------------------------------------------------

  /** What `_read_secret_map` accepts: exactly the plan's references, each
      with a URL it is the reference of. */
  predicate SidecarMatches(sidecar: map<string, string>, markers: set<string>, p: Platform) {
    sidecar.Keys == markers && forall m | m in sidecar :: Redacted(sidecar[m], p) == m
  }

  /** `load_plan_file` with hydration, given the two files as they parse. */
  function Load(payload: Option<Json>, sidecar: Option<map<string, string>>, p: Platform): Result<Json> {
    if payload.None? then Refused
    else
      var markers := Markers(payload.value, None, p);
      if markers == {} then Hydrate(payload.value, map[], None, p)
      else if sidecar.None? || !SidecarMatches(sidecar.value, markers, p) then Refused
      else Hydrate(payload.value, sidecar.value, None, p)
  }

  /** No other text has the reference of one of these URLs. */
  ghost predicate CollisionFree(urls: set<string>, p: Platform) {
    forall u, v: string | u in urls :: Redacted(v, p) == Redacted(u, p) ==> v == u
  }

  lemma {:induction false} SignedHaveQueries(t: Json, key: Key, p: Platform)
    ensures forall u | u in Signed(t, key, p) :: HasQuery(u, p)
    decreases t
  {
    match t {
      case Arr(items) => SignedHaveQueriesItems(items, key, p);
      case Obj(fields) => SignedHaveQueriesFields(fields, p);
      case _ =>
    }
  }

  lemma {:induction false} SignedHaveQueriesItems(items: Items, key: Key, p: Platform)
    ensures forall u | u in SignedItems(items, key, p) :: HasQuery(u, p)
    decreases items
  {
    if items.Item? {
      SignedHaveQueries(items.head, key, p);
      SignedHaveQueriesItems(items.rest, key, p);
    }
  }

  lemma {:induction false} SignedHaveQueriesFields(fields: Fields, p: Platform)
    ensures forall u | u in SignedFields(fields, p) :: HasQuery(u, p)
    decreases fields
  {
    if fields.Field? {
      SignedHaveQueries(fields.value, Some(fields.name), p);
      SignedHaveQueriesFields(fields.rest, p);
    }
  }

  /** The part of a plan's dictionary whose references are recognised. */
  function KnownSecrets(plan: Json, p: Platform): map<string, string> {
    var own := Secrets(plan, None, p);
    map m | m in own && IsRedacted(m, p) :: own[m]
  }

  lemma KnownSecretsPair(plan: Json, p: Platform)
    requires Hashes(p)
    ensures Pairs(KnownSecrets(plan, p), Known(Signed(plan, None, p), p), p)
  {
    var own, known := Secrets(plan, None, p), KnownSecrets(plan, p);
    var urls := Signed(plan, None, p);
    SecretsPair(plan, None, p);
    forall m | m in known ensures known[m] in Known(urls, p) && Redacted(known[m], p) == m {
      ReferenceRecognisedIff(own[m], p);
    }
    forall u | u in Known(urls, p) ensures Redacted(u, p) in known {
      ReferenceRecognisedIff(u, p);
    }
  }

  lemma KnownCovers(plan: Json, p: Platform)
    requires Hashes(p) && CollisionFree(Known(Signed(plan, None, p), p), p)
    ensures Covers(KnownSecrets(plan, p), Signed(plan, None, p), p)
  {
    var urls, known := Signed(plan, None, p), KnownSecrets(plan, p);
    KnownSecretsPair(plan, p);
    forall u | u in urls && Recognisable(u, p) ensures Redacted(u, p) in known && known[Redacted(u, p)] == u {
      assert u in Known(urls, p);
      assert Redacted(known[Redacted(u, p)], p) == Redacted(u, p);
    }
  }

  /** A dictionary with the references of these URLs as its keys matches, and
      no other does. */
  lemma OnlyOwnSidecar(urls: set<string>, own: map<string, string>, sidecar: map<string, string>, p: Platform)
    requires Pairs(own, urls, p) && CollisionFree(urls, p)
    ensures SidecarMatches(sidecar, References(urls, p), p) <==> sidecar == own
  {
    KeysAreReferences(own, urls, p);
    if SidecarMatches(sidecar, References(urls, p), p) {
      forall m | m in own ensures sidecar[m] == own[m] {
        assert Redacted(own[m], p) == m && own[m] in urls;
        assert Redacted(sidecar[m], p) == Redacted(own[m], p);
      }
    }
  }

  /** Whatever sidecar stands beside a saved plan, loading gives that plan, or
      refuses: it gives the plan exactly when the sidecar holds the recognised
      references and their own URLs, or there is none of these. A URL whose
      reference is not recognised is replaced by it. */
  lemma LoadOwnOrRefuse(plan: Json, sidecar: Option<map<string, string>>, p: Platform)
    requires Markers(plan, None, p) == {} && Hashes(p) && CollisionFree(Known(Signed(plan, None, p), p), p)
    ensures
      Load(Some(Redact(plan, None, p)), sidecar, p) ==
      if Known(Signed(plan, None, p), p) == {} || sidecar == Some(KnownSecrets(plan, p)) then Ok(Lossy(plan, None, p))
      else Refused
    ensures Lossy(plan, None, p) == plan <==> AllRecognisable(Signed(plan, None, p), p)
  {
    var urls, own := Known(Signed(plan, None, p), p), KnownSecrets(plan, p);
    RedactKeeps(plan, None, p);
    KnownCovers(plan, p);
    KnownSecretsPair(plan, p);
    HydrateGives(plan, None, own, p);
    if urls == {} {
      NothingToCover(Signed(plan, None, p), p);
      HydrateGives(plan, None, map[], p);
    }
    LoadEither(Redact(plan, None, p), Lossy(plan, None, p), urls, own, sidecar, p);
  }

  lemma LoadEither(payload: Json, plan: Json, urls: set<string>, own: map<string, string>,
                   sidecar: Option<map<string, string>>, p: Platform)
    requires Markers(payload, None, p) == {} + References(urls, p)
    requires Pairs(own, urls, p) && CollisionFree(urls, p) && Hydrate(payload, own, None, p) == Ok(plan)
    requires urls == {} ==> Hydrate(payload, map[], None, p) == Ok(plan)
    ensures Load(Some(payload), sidecar, p) == if urls == {} || sidecar == Some(own) then Ok(plan) else Refused
  {
    if urls == {} {
      assert References(urls, p) == {};
      LoadUnsigned(payload, plan, sidecar, p);
    } else {
      LoadSigned(payload, plan, urls, own, sidecar, p);
    }
  }

  lemma NothingToCover(urls: set<string>, p: Platform)
    requires Known(urls, p) == {}
    ensures Covers(map[], urls, p) && References(Known(urls, p), p) == {}
  {
    forall u | u in urls ensures !Recognisable(u, p) {
      assert Recognisable(u, p) ==> u in Known(urls, p);
    }
  }

  lemma LoadUnsigned(payload: Json, plan: Json, sidecar: Option<map<string, string>>, p: Platform)
    requires Markers(payload, None, p) == {} && Hydrate(payload, map[], None, p) == Ok(plan)
    ensures Load(Some(payload), sidecar, p) == Ok(plan)
  {
  }

  lemma LoadSigned(payload: Json, plan: Json, urls: set<string>, own: map<string, string>,
                   sidecar: Option<map<string, string>>, p: Platform)
    requires Markers(payload, None, p) == References(urls, p) && urls != {}
    requires Pairs(own, urls, p) && CollisionFree(urls, p) && Hydrate(payload, own, None, p) == Ok(plan)
    ensures Load(Some(payload), sidecar, p) == if sidecar == Some(own) then Ok(plan) else Refused
  {
    var u :| u in urls;
    assert Redacted(u, p) in References(urls, p);
    if sidecar.Some? {
      OnlyOwnSidecar(urls, own, sidecar.value, p);
    }
  }

  /** The sidecar written with a plan. */
  function OwnSidecar(plan: Json, p: Platform): Option<map<string, string>> {
    if Secrets(plan, None, p) == map[] then None else Some(Secrets(plan, None, p))
  }

  /** Beside its own sidecar a plan loads whole exactly when every reference
      is recognised; with some recognised and some not it is refused, and with
      none it loads with the references in the URLs' places. */
  lemma OwnSidecarLoadsIff(plan: Json, p: Platform)
    requires Markers(plan, None, p) == {} && Hashes(p) && CollisionFree(Known(Signed(plan, None, p), p), p)
    ensures
      var urls, loaded := Signed(plan, None, p), Load(Some(Redact(plan, None, p)), OwnSidecar(plan, p), p);
      && (loaded == Ok(plan) <==> AllRecognisable(urls, p))
      && (loaded == Refused <==> !AllRecognisable(urls, p) && Known(urls, p) != {})
      && (loaded.Ok? ==> loaded.value == Lossy(plan, None, p))
  {
    LoadOwnOrRefuse(plan, OwnSidecar(plan, p), p);
    AllKnownIff(plan, p);
  }

  /** The whole dictionary is kept exactly when every reference is recognised. */
  lemma AllKnownIff(plan: Json, p: Platform)
    requires Hashes(p)
    ensures AllRecognisable(Signed(plan, None, p), p) <==> KnownSecrets(plan, p) == Secrets(plan, None, p)
    ensures Secrets(plan, None, p) == map[] <==> Signed(plan, None, p) == {}
    ensures AllRecognisable(Signed(plan, None, p), p) ==> Known(Signed(plan, None, p), p) == Signed(plan, None, p)
  {
    SecretsPair(plan, None, p);
    EmptyTogether(Secrets(plan, None, p), Signed(plan, None, p), p);
    RestrictedIff(Secrets(plan, None, p), Signed(plan, None, p), p);
    if AllRecognisable(Signed(plan, None, p), p) {
      KnownAll(Signed(plan, None, p), p);
    }
  }

  lemma KnownAll(urls: set<string>, p: Platform)
    requires AllRecognisable(urls, p)
    ensures Known(urls, p) == urls
  {
  }

  lemma RestrictedIff(own: map<string, string>, urls: set<string>, p: Platform)
    requires Hashes(p) && Pairs(own, urls, p)
    ensures AllRecognisable(urls, p) <==> (map m | m in own && IsRedacted(m, p) :: own[m]) == own
  {
    if AllRecognisable(urls, p) {
      AllStay(own, urls, p);
    } else {
      var u :| u in urls && !Recognisable(u, p);
      UnknownIsDropped(own, urls, u, p);
    }
  }

  lemma AllStay(own: map<string, string>, urls: set<string>, p: Platform)
    requires Hashes(p) && Pairs(own, urls, p) && AllRecognisable(urls, p)
    ensures (map m | m in own && IsRedacted(m, p) :: own[m]) == own
  {
    forall m | m in own ensures IsRedacted(m, p) {
      ReferenceRecognisedIff(own[m], p);
    }
  }

  lemma UnknownIsDropped(own: map<string, string>, urls: set<string>, u: string, p: Platform)
    requires Hashes(p) && Pairs(own, urls, p) && u in urls && !Recognisable(u, p)
    ensures Redacted(u, p) in own && Redacted(u, p) !in (map m | m in own && IsRedacted(m, p) :: own[m])
  {
    ReferenceRecognisedIff(u, p);
  }

  lemma EmptyTogether(own: map<string, string>, urls: set<string>, p: Platform)
    requires Pairs(own, urls, p)
    ensures own == map[] <==> urls == {}
  {
    if u :| u in urls {
      assert Redacted(u, p) in own;
    }
    if m :| m in own {
      assert own[m] in urls;
    }
  }

  // -- URLs whose reference is not recognised, on disk ------------------------------------

  /** A document with one field. */
  function OneField(name: string, value: Json): Json {
    Obj(Field(name, value, NoFields))
  }

  lemma OneFieldWalks(name: string, value: Json, p: Platform)
    ensures Redact(OneField(name, value), None, p) == OneField(name, Redact(value, Some(name), p))
    ensures Lossy(OneField(name, value), None, p) == OneField(name, Lossy(value, Some(name), p))
    ensures Markers(OneField(name, value), None, p) == Markers(value, Some(name), p)
    ensures Signed(OneField(name, value), None, p) == Signed(value, Some(name), p)
  {
    assert RedactFields(Field(name, value, NoFields), p) == Field(name, Redact(value, Some(name), p), NoFields);
    assert LossyFields(Field(name, value, NoFields), p) == Field(name, Lossy(value, Some(name), p), NoFields);
    assert MarkersFields(Field(name, value, NoFields), p) == Markers(value, Some(name), p) + MarkersFields(NoFields, p);
    assert SignedFields(Field(name, value, NoFields), p) == Signed(value, Some(name), p) + SignedFields(NoFields, p);
  }

  /** Where a URL is not recognisable, one that does not split included, the
      plan is not refused: it loads with the reference standing in the URL's
      place. */
  lemma UnrecognisedLoadsAsReference(name: string, url: string, sidecar: Option<map<string, string>>, p: Platform)
    requires UrlField(Some(name)) && HasQuery(url, p) && !Recognisable(url, p) && Hashes(p)
    ensures
      Load(Some(Redact(OneField(name, Str(url)), None, p)), sidecar, p) == Ok(OneField(name, Str(Redacted(url, p))))
  {
    var plan := OneField(name, Str(url));
    OneFieldWalks(name, Str(url), p);
    if IsRedacted(url, p) {
      ReferenceIsNotSigned(url, p);
    }
    assert Signed(Str(url), Some(name), p) == {url};
    assert Known({url}, p) == {};
    LoadOwnOrRefuse(plan, sidecar, p);
  }

  /** The plan file and the sidecar beside it. Each replacement is atomic;
      the process may stop, or a write fail, before any of them. */
  class PlanFiles {
    const p: Platform
    var payload: Option<Json>
    var sidecar: Option<map<string, string>>

    constructor (p: Platform)
      ensures this.p == p && payload == None && sidecar == None
    {
      this.p, payload, sidecar := p, None, None;
    }

    /** The plan file holds what `write_plan_file` made of `plan`, or nothing. */
    ghost predicate Holds(plan: Option<Json>)
      reads this
    {
      match plan
      case None => payload == None
      case Some(q) => payload == Some(Redact(q, None, p)) && Saveable(q, p)
    }

    /** What loading gives is the old plan, the new one, or a refusal. */
    ghost predicate LoadsWhole(plan: Json, before: Option<Json>)
      reads this
    {
      var loaded := Load(payload, sidecar, p);
      || loaded == Refused
      || loaded == Ok(Lossy(plan, None, p))
      || (before.Some? && loaded == Ok(Lossy(before.value, None, p)))
    }

    /** `write_plan_file`: stopped anywhere, what is left loads as the old plan
        or the new one, or is refused, never as one plan with another's URL;
        completed, it loads as the new plan exactly when every reference is
        recognised. A plan loads with the references that are not recognised
        in their URLs' places, which is whole when there are none. */
    method WritePlanFile(plan: Json, ghost before: Option<Json>) returns (completed: bool)
      requires Hashes(p) && Saveable(plan, p) && Holds(before)
      modifies this
      ensures Holds(before) || Holds(Some(plan))
      ensures LoadsWhole(plan, before)
      ensures AllRecognisable(Signed(plan, None, p), p) <==> Lossy(plan, None, p) == plan
      ensures completed ==> (Load(payload, sidecar, p) == Ok(plan) <==> AllRecognisable(Signed(plan, None, p), p))
      ensures completed ==> payload == Some(Redact(plan, None, p)) && sidecar == OwnSidecar(plan, p)
    {
      completed := false;
      LoadOwnOrRefuse(plan, None, p);
      var redactor := new Redactor(p);
      var redacted := redactor.Walk(plan, None);
      var secrets := redactor.secrets;
      assert map[] + Secrets(plan, None, p) == Secrets(plan, None, p);
      var stops: bool := *;
      if stops {
        HeldLoads(plan, before);
        return;
      }
      if secrets != map[] {
        sidecar := Some(secrets);
        stops := *;
        if stops {
          HeldLoads(plan, before);
          return;
        }
      }
      payload := Some(redacted);
      if secrets == map[] {
        stops := *;
        if stops {
          HeldLoads(plan, before);
          return;
        }
        sidecar := None;
      }
      OwnSidecarLoadsIff(plan, p);
      HeldLoads(plan, before);
      completed := true;
    }

    lemma HeldLoads(plan: Json, before: Option<Json>)
      requires Hashes(p) && (Holds(before) || Holds(Some(plan)))
      ensures LoadsWhole(plan, before)
    {
      if Holds(Some(plan)) {
        LoadOwnOrRefuse(plan, sidecar, p);
      } else if before.Some? {
        LoadOwnOrRefuse(before.value, sidecar, p);
      }
    }
  }

  /** A plan as `plan` builds it, without references, whose own references
      are free of collisions. */
  ghost predicate Saveable(plan: Json, p: Platform) {
    Markers(plan, None, p) == {} && CollisionFree(Known(Signed(plan, None, p), p), p)
  }

  /** Stopped between the sidecar and the plan, the old plan still loads whole
      exactly when it has no signed URL, or references that are all recognised
      and shares its credentials with the new one. */
  lemma BetweenTheFilesIff(plan: Json, before: Json, p: Platform)
    requires Hashes(p) && Saveable(before, p)
    ensures
      Load(Some(Redact(before, None, p)), Some(Secrets(plan, None, p)), p) == Ok(before)
      <==> AllRecognisable(Signed(before, None, p), p)
           && (Signed(before, None, p) == {} || Secrets(plan, None, p) == Secrets(before, None, p))
  {
    LoadOwnOrRefuse(before, Some(Secrets(plan, None, p)), p);
    AllKnownIff(before, p);
  }
}
