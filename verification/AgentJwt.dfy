/** server/src/agent-auth-jwt.ts: minting and verifying the tokens of local agents.

    The compact serialisation is that of section 7.1 of RFC 7515. The hash, the UTF-8 coding and the JSON coding
    are parameters of the model; the theorems ask of the two codings that the header and the claims they are about
    read back (`ReadsBack`), and nothing at all of the hash. */
module AgentJwt {
  import opened Text
  import opened Base64

  /** Property names of JSON objects: those the code asks for, and all others. */
  datatype Name =
    | Alg | Typ | Sub | CompanyId | AdapterType | RunId | ResponsibleUserId | KeyScope
    | Iat | Exp | Iss | Aud | InstanceId | Jti
    | Other(text: string)

  datatype Json =
    | JNull
    | JBool(b: bool)
    | JNum(n: real)
    | JStr(s: string)
    | JArr(items: seq<Json>)
    | JObj(fields: map<Name, Json>)

  datatype Platform = Platform(
    stringify: Json -> string,
    parse: string -> Option<Json>,
    toUtf8: string -> Bytes,
    fromUtf8: Bytes -> string,
    hmac: (string, string) -> Bytes,
    normalizeScope: Json -> Option<Json>)

  /** The text of this value reads back as the value, and survives UTF-8. */
  ghost predicate ReadsBack(p: Platform, j: Json) {
    p.parse(p.stringify(j)) == Some(j) && p.fromUtf8(p.toUtf8(p.stringify(j))) == p.stringify(j)
  }

  /** The settings of one control plane. There is no configuration at all when no secret is set. */
  datatype Config = Config(secret: string, ttlSeconds: nat, issuer: string, audience: string, instanceId: string,
                           disableLegacyFallback: bool)

  /** What the caller asks to be minted. The standard key scope is not written into the token. */
  datatype Grant = Grant(agentId: string, companyId: string, adapterType: string, runId: string,
                         responsibleUserId: Option<string>, keyScope: Option<Json>)

  /** Claims as verified. For the two fields that may be absent, null or present, None means absent. */
  datatype Claims = Claims(sub: string, companyId: string, adapterType: string, runId: string,
                           responsibleUserId: Option<Option<string>>, keyScope: Option<Option<Json>>,
                           iat: real, exp: real, iss: Option<string>, aud: Option<string>, instanceId: Option<string>,
                           jti: Option<string>)

  // ---------- the code ----------

  function HexDigit(v: int): char
    requires 0 <= v < 16
  {
    "0123456789abcdef"[v]
  }

  function Hex(b: Bytes): string {
    if b == [] then [] else [HexDigit(b[0] / 16), HexDigit(b[0] % 16)] + Hex(b[1..])
  }

  function KeyDerivationInput(instanceId: string, companyId: string): string {
    "jwt:" + instanceId + ":" + companyId
  }

  function DeriveCompanySigningKey(p: Platform, masterSecret: string, companyId: string, instanceId: string): string {
    Hex(p.hmac(masterSecret, KeyDerivationInput(instanceId, companyId)))
  }

  function Base64UrlEncode(p: Platform, value: string): string {
    Encode(Url, p.toUtf8(value))
  }

  function Base64UrlDecode(p: Platform, value: string): string {
    p.fromUtf8(NodeDecode(value))
  }

  function SignPayload(p: Platform, secret: string, signingInput: string): string {
    Encode(Url, p.hmac(secret, signingInput))
  }

  function SafeCompare(p: Platform, a: string, b: string): bool {
    p.toUtf8(a) == p.toUtf8(b)
  }

  /** The own properties of a parsed object. An array passes as an object but has none of the names asked for;
      any other value, and text that is no JSON, yields None. */
  function ParseJson(p: Platform, text: string): Option<map<Name, Json>> {
    match p.parse(text)
    case Some(JObj(fields)) => Some(fields)
    case Some(JArr(_)) => Some(map[])
    case _ => None
  }

  function NonEmpty(s: string): Option<string> {
    if s == "" then None else Some(s)
  }

  /** A string property that is present and not empty. */
  function TextClaim(fields: map<Name, Json>, name: Name): Option<string> {
    if name in fields && fields[name].JStr? then NonEmpty(fields[name].s) else None
  }

  /** A number property that is present and not zero. */
  function NumberClaim(fields: map<Name, Json>, name: Name): Option<real> {
    if name in fields && fields[name].JNum? && fields[name].n != 0.0 then Some(fields[name].n) else None
  }

  function TrimmedUser(u: Option<string>): Option<string> {
    if u.Some? then NonEmpty(Trim(u.value)) else None
  }

  function ClaimsJson(config: Config, grant: Grant, now: int): (j: Json)
    ensures j.JObj?
  {
    var user := TrimmedUser(grant.responsibleUserId);
    var fields := map[
      Sub := JStr(grant.agentId),
      CompanyId := JStr(grant.companyId),
      AdapterType := JStr(grant.adapterType),
      RunId := JStr(grant.runId),
      ResponsibleUserId := if user.Some? then JStr(user.value) else JNull,
      Iat := JNum(now as real),
      Exp := JNum((now + config.ttlSeconds) as real),
      Iss := JStr(config.issuer),
      Aud := JStr(config.audience),
      InstanceId := JStr(config.instanceId)];
    JObj(if grant.keyScope.Some? then fields[KeyScope := grant.keyScope.value] else fields)
  }

  const HEADER := JObj(map[Alg := JStr("HS256"), Typ := JStr("JWT")])

  function SigningInput(p: Platform, config: Config, grant: Grant, now: int): string {
    Base64UrlEncode(p, p.stringify(HEADER)) + "." + Base64UrlEncode(p, p.stringify(ClaimsJson(config, grant, now)))
  }

  /** `createLocalAgentJwt`, at the clock's whole second `now`. */
  function CreateLocalAgentJwt(p: Platform, config: Option<Config>, grant: Grant, now: int): Option<string> {
    match config
    case None => None
    case Some(c) =>
      var signingInput := SigningInput(p, c, grant, now);
      var key := DeriveCompanySigningKey(p, c.secret, grant.companyId, c.instanceId);
      Some(signingInput + "." + SignPayload(p, key, signingInput))
  }

  function SignatureOk(p: Platform, c: Config, companyId: string, signingInput: string, signature: string): bool {
    var perCompanyKey := DeriveCompanySigningKey(p, c.secret, companyId, c.instanceId);
    SafeCompare(p, signature, SignPayload(p, perCompanyKey, signingInput))
    || (!c.disableLegacyFallback && SafeCompare(p, signature, SignPayload(p, c.secret, signingInput)))
  }

  /** The checks on the claims once the signature has been accepted. */
  function CheckClaims(p: Platform, c: Config, fields: map<Name, Json>, companyId: string, now: int): Option<Claims> {
    var sub, adapterType, runId := TextClaim(fields, Sub), TextClaim(fields, AdapterType), TextClaim(fields, RunId);
    var iat, exp := NumberClaim(fields, Iat), NumberClaim(fields, Exp);
    var iss, aud, instance := TextClaim(fields, Iss), TextClaim(fields, Aud), TextClaim(fields, InstanceId);
    if sub.None? || adapterType.None? || runId.None? || iat.None? || exp.None? then None
    else if exp.value < now as real then None
    else if iss.Some? && iss.value != c.issuer then None
    else if aud.Some? && aud.value != c.audience then None
    else if instance.Some? && instance.value != c.instanceId then None
    else
      Some(Claims(
        sub.value, companyId, adapterType.value, runId.value,
        if ResponsibleUserId in fields then
          Some(TrimmedUser(if fields[ResponsibleUserId].JStr? then Some(fields[ResponsibleUserId].s) else None))
        else None,
        if KeyScope in fields then Some(p.normalizeScope(fields[KeyScope])) else None,
        iat.value, exp.value, iss, aud, instance,
        if Jti in fields && fields[Jti].JStr? then Some(fields[Jti].s) else None))
  }

  function VerifyParts(p: Platform, c: Config, headerB64: string, claimsB64: string, signature: string, now: int)
    : Option<Claims>
  {
    var header := ParseJson(p, Base64UrlDecode(p, headerB64));
    if header.None? || Alg !in header.value || header.value[Alg] != JStr("HS256") then None
    else
      var claims := ParseJson(p, Base64UrlDecode(p, claimsB64));
      if claims.None? then None
      else
        var companyId := TextClaim(claims.value, CompanyId);
        if companyId.None? then None
        else if !SignatureOk(p, c, companyId.value, headerB64 + "." + claimsB64, signature) then None
        else CheckClaims(p, c, claims.value, companyId.value, now)
  }

  /** `verifyLocalAgentJwt`. */
  function VerifyLocalAgentJwt(p: Platform, config: Option<Config>, token: string, now: int): Option<Claims> {
    if token == "" || config.None? then None
    else
      var parts := Split(token, '.');
      if |parts| != 3 then None else VerifyParts(p, config.value, parts[0], parts[1], parts[2], now)
  }

  // ---------- round trip ----------

  lemma EncodedHasNoDot(b: Bytes)
    ensures '.' !in Encode(Url, b)
  {
    DigitsAreDigits(Url, Sextets(b));
  }

  lemma JsonSegmentReadsBack(p: Platform, j: Json)
    requires ReadsBack(p, j)
    ensures p.parse(Base64UrlDecode(p, Base64UrlEncode(p, p.stringify(j)))) == Some(j)
  {
    NodeDecodesEncoded(Url, p.toUtf8(p.stringify(j)));
  }

  /** What the round trip asks of the codings can be met, for every configuration and grant. */
  lemma SomePlatformReadsBack(c: Config, grant: Grant, now: int) returns (p: Platform)
    ensures ReadsBack(p, HEADER) && ReadsBack(p, ClaimsJson(c, grant, now))
  {
    var claims := ClaimsJson(c, grant, now);
    assert Sub in claims.fields && Sub !in HEADER.fields;
    p := Platform(j => if j == HEADER then "" else "{}",
                  text => Some(if text == "" then HEADER else claims),
                  text => if text == "" then [] else [0],
                  bytes => if bytes == [] then "" else "{}",
                  (key, text) => [], j => None);
  }

  lemma ThreeParts(a: string, b: string, c: string)
    requires '.' !in a && '.' !in b && '.' !in c
    ensures Split(a + "." + b + "." + c, '.') == [a, b, c]
  {
    SplitSingle(a, '.');
    SplitSingle(b, '.');
    SplitSingle(c, '.');
    SplitConcat(a, b, '.');
    SplitConcat(a + ['.'] + b, c, '.');
  }

  lemma JoinThree(a: string, b: string, c: string)
    ensures Join([a, b, c], '.') == a + "." + b + "." + c
  {
    assert [a, b, c][1..] == [b, c] && [b, c][1..] == [c];
    assert Join([c], '.') == c;
    assert Join([b, c], '.') == b + ['.'] + c;
    assert a + ['.'] + (b + ['.'] + c) == a + "." + b + "." + c;
  }

  lemma TokenParts(p: Platform, c: Config, grant: Grant, now: int)
    ensures var signingInput := SigningInput(p, c, grant, now);
            var signature := SignPayload(p, DeriveCompanySigningKey(p, c.secret, grant.companyId, c.instanceId),
                                         signingInput);
            CreateLocalAgentJwt(p, Some(c), grant, now) == Some(signingInput + "." + signature)
            && Split(signingInput + "." + signature, '.')
               == [Base64UrlEncode(p, p.stringify(HEADER)), Base64UrlEncode(p, p.stringify(ClaimsJson(c, grant, now))),
                   signature]
  {
    var signingInput := SigningInput(p, c, grant, now);
    var key := DeriveCompanySigningKey(p, c.secret, grant.companyId, c.instanceId);
    EncodedHasNoDot(p.toUtf8(p.stringify(HEADER)));
    EncodedHasNoDot(p.toUtf8(p.stringify(ClaimsJson(c, grant, now))));
    EncodedHasNoDot(p.hmac(key, signingInput));
    ThreeParts(Base64UrlEncode(p, p.stringify(HEADER)), Base64UrlEncode(p, p.stringify(ClaimsJson(c, grant, now))),
               SignPayload(p, key, signingInput));
  }

  /** The properties a minted token carries. */
  lemma MintedTexts(c: Config, grant: Grant, now: int)
    ensures var fields := ClaimsJson(c, grant, now).fields;
            && TextClaim(fields, Sub) == NonEmpty(grant.agentId)
            && TextClaim(fields, CompanyId) == NonEmpty(grant.companyId)
            && TextClaim(fields, AdapterType) == NonEmpty(grant.adapterType)
            && TextClaim(fields, RunId) == NonEmpty(grant.runId)
            && TextClaim(fields, Iss) == NonEmpty(c.issuer)
            && TextClaim(fields, Aud) == NonEmpty(c.audience)
            && TextClaim(fields, InstanceId) == NonEmpty(c.instanceId)
  {
    hide Trim;
  }

  lemma MintedTimes(c: Config, grant: Grant, now: int)
    ensures var fields := ClaimsJson(c, grant, now).fields;
            && NumberClaim(fields, Iat) == (if now == 0 then None else Some(now as real))
            && NumberClaim(fields, Exp)
               == (if now + c.ttlSeconds == 0 then None else Some((now + c.ttlSeconds) as real))
  {
    hide Trim;
  }

  lemma MintedOptions(c: Config, grant: Grant, now: int)
    ensures var fields := ClaimsJson(c, grant, now).fields;
            && Jti !in fields
            && (KeyScope in fields <==> grant.keyScope.Some?)
            && (grant.keyScope.Some? ==> fields[KeyScope] == grant.keyScope.value)
            && ResponsibleUserId in fields
            && fields[ResponsibleUserId] == var user := TrimmedUser(grant.responsibleUserId);
                                            if user.Some? then JStr(user.value) else JNull
  {
    hide TrimmedUser;
  }

  lemma VerifyReadableParts(p: Platform, c: Config, headerB64: string, claimsB64: string, signature: string,
                            fields: map<Name, Json>, now: int)
    requires p.parse(Base64UrlDecode(p, headerB64)) == Some(HEADER)
    requires p.parse(Base64UrlDecode(p, claimsB64)) == Some(JObj(fields))
    ensures VerifyParts(p, c, headerB64, claimsB64, signature, now)
            == var companyId := TextClaim(fields, CompanyId);
               if companyId.Some? && SignatureOk(p, c, companyId.value, headerB64 + "." + claimsB64, signature)
               then CheckClaims(p, c, fields, companyId.value, now) else None
  {
    hide SignatureOk, CheckClaims, TextClaim, Base64UrlDecode;
  }

  /** Verifying a minted token, under whatever configuration, comes down to the signature and the claims minted. */
  lemma VerifyMinted(p: Platform, c: Config, grant: Grant, now: int, other: Config, at: int)
    requires ReadsBack(p, HEADER) && ReadsBack(p, ClaimsJson(c, grant, now))
    ensures var token := CreateLocalAgentJwt(p, Some(c), grant, now).value;
            var signingInput := SigningInput(p, c, grant, now);
            var signature := SignPayload(p, DeriveCompanySigningKey(p, c.secret, grant.companyId, c.instanceId),
                                         signingInput);
            VerifyLocalAgentJwt(p, Some(other), token, at)
            == if grant.companyId != "" && SignatureOk(p, other, grant.companyId, signingInput, signature)
               then CheckClaims(p, other, ClaimsJson(c, grant, now).fields, grant.companyId, at)
               else None
  {
    var key := DeriveCompanySigningKey(p, c.secret, grant.companyId, c.instanceId);
    var signature := SignPayload(p, key, SigningInput(p, c, grant, now));
    hide ClaimsJson, Encode, Split, CheckClaims, SignatureOk, Hex, TextClaim, Base64UrlDecode;
    TokenParts(p, c, grant, now);
    MintedTexts(c, grant, now);
    assert SigningInput(p, c, grant, now) != "";
    JsonSegmentReadsBack(p, HEADER);
    JsonSegmentReadsBack(p, ClaimsJson(c, grant, now));
    VerifyReadableParts(p, other, Base64UrlEncode(p, p.stringify(HEADER)),
                        Base64UrlEncode(p, p.stringify(ClaimsJson(c, grant, now))), signature,
                        ClaimsJson(c, grant, now).fields, at);
  }

  /** What a verifier with the same configuration reads out of the minted token. */
  function MintedClaims(p: Platform, c: Config, grant: Grant, now: int): Claims {
    Claims(grant.agentId, grant.companyId, grant.adapterType, grant.runId,
           Some(TrimmedUser(grant.responsibleUserId)),
           if grant.keyScope.Some? then Some(p.normalizeScope(grant.keyScope.value)) else None,
           now as real, (now + c.ttlSeconds) as real,
           NonEmpty(c.issuer), NonEmpty(c.audience), NonEmpty(c.instanceId), None)
  }

  /** None of the fields a verifier insists on is empty; the epoch second zero counts as empty. */
  predicate Mintable(c: Config, grant: Grant, now: int) {
    && grant.agentId != "" && grant.companyId != "" && grant.adapterType != "" && grant.runId != ""
    && now != 0 && now + c.ttlSeconds != 0
  }

  lemma TrimmedUserTwice(u: Option<string>)
    ensures TrimmedUser(TrimmedUser(u)) == TrimmedUser(u)
  {
    if u.Some? {
      TrimIsTrimmed(u.value);
    }
  }

  lemma MintedClaimsChecked(p: Platform, c: Config, grant: Grant, now: int, at: int)
    ensures CheckClaims(p, c, ClaimsJson(c, grant, now).fields, grant.companyId, at)
            == if grant.agentId != "" && grant.adapterType != "" && grant.runId != "" && now != 0
                  && now + c.ttlSeconds != 0 && at <= now + c.ttlSeconds
               then Some(MintedClaims(p, c, grant, now)) else None
  {
    hide ClaimsJson, TextClaim, NumberClaim, TrimmedUser;
    MintedTexts(c, grant, now);
    MintedTimes(c, grant, now);
    MintedOptions(c, grant, now);
    TrimmedUserTwice(grant.responsibleUserId);
  }

  /** A minted token verifies under its own configuration to exactly what was minted, up to and including the
      last second of its life, and to nothing afterwards. */
  lemma MintThenVerify(p: Platform, c: Config, grant: Grant, now: int, at: int)
    requires ReadsBack(p, HEADER) && ReadsBack(p, ClaimsJson(c, grant, now))
    ensures VerifyLocalAgentJwt(p, Some(c), CreateLocalAgentJwt(p, Some(c), grant, now).value, at)
            == if Mintable(c, grant, now) && at <= now + c.ttlSeconds then Some(MintedClaims(p, c, grant, now))
               else None
  {
    VerifyMinted(p, c, grant, now, c, at);
    MintedClaimsChecked(p, c, grant, now, at);
  }

  /** A token minted by an instance with an id is worth nothing under any other instance id, whatever the other
      settings, the time and the hash. */
  lemma OtherInstanceRejects(p: Platform, c: Config, grant: Grant, now: int, other: Config, at: int)
    requires ReadsBack(p, HEADER) && ReadsBack(p, ClaimsJson(c, grant, now))
    requires c.instanceId != "" && other.instanceId != c.instanceId
    ensures VerifyLocalAgentJwt(p, Some(other), CreateLocalAgentJwt(p, Some(c), grant, now).value, at) == None
  {
    VerifyMinted(p, c, grant, now, other, at);
    hide ReadsBack, VerifyLocalAgentJwt, SigningInput, SignatureOk, SignPayload, ClaimsJson, TextClaim, NumberClaim,
         TrimmedUser;
    MintedTexts(c, grant, now);
  }

  // ---------- any token at all ----------

  /** Whatever text is accepted carries a signature over its own header and claims, made with the key of this
      instance and of the very company it is accepted for, or else, where still allowed, with the raw secret. */
  lemma AcceptedIsSigned(p: Platform, c: Config, token: string, now: int)
    requires VerifyLocalAgentJwt(p, Some(c), token, now).Some?
    ensures var claims := VerifyLocalAgentJwt(p, Some(c), token, now).value;
            var parts := Split(token, '.');
            && |parts| == 3 && token == parts[0] + "." + parts[1] + "." + parts[2]
            && claims.exp >= now as real
            && (claims.instanceId.Some? ==> claims.instanceId.value == c.instanceId)
            && var input := parts[0] + "." + parts[1];
               var key := DeriveCompanySigningKey(p, c.secret, claims.companyId, c.instanceId);
               || SafeCompare(p, parts[2], SignPayload(p, key, input))
               || (!c.disableLegacyFallback && SafeCompare(p, parts[2], SignPayload(p, c.secret, input)))
  {
    var parts := Split(token, '.');
    JoinSplit(token, '.');
    JoinThree(parts[0], parts[1], parts[2]);
    assert parts == [parts[0], parts[1], parts[2]];
  }

  /** The clock decides nothing but expiry: an accepted token is accepted, with the same claims, at exactly the
      times up to its expiry. */
  lemma OnlyExpiryDependsOnTime(p: Platform, c: Config, token: string, now: int, at: int)
    requires VerifyLocalAgentJwt(p, Some(c), token, now).Some?
    ensures var claims := VerifyLocalAgentJwt(p, Some(c), token, now);
            VerifyLocalAgentJwt(p, Some(c), token, at) == if at as real <= claims.value.exp then claims else None
  {
  }

  /** Two (instance, company) pairs derive their keys from the same text only if they are the same pair, so long
      as company ids hold no colon. */
  lemma KeyDerivationSeparates(instance1: string, company1: string, instance2: string, company2: string)
    requires ':' !in company1 && ':' !in company2
    requires KeyDerivationInput(instance1, company1) == KeyDerivationInput(instance2, company2)
    ensures instance1 == instance2 && company1 == company2
  {
    var a, b := instance1 + [':'] + company1, instance2 + [':'] + company2;
    assert KeyDerivationInput(instance1, company1)[4..] == a;
    assert KeyDerivationInput(instance2, company2)[4..] == b;
    SplitConcat(instance1, company1, ':');
    SplitConcat(instance2, company2, ':');
    SplitSingle(company1, ':');
    SplitSingle(company2, ':');
    var parts := Split(a, ':');
    assert parts[|parts| - 1] == company1 == company2;
    assert a[..|instance1|] == instance1 && b[..|instance2|] == instance2;
  }
}
