/**
 Which fields of a configuration are secrets, by name, and what becomes of each of them and of
 every other field beside them.
 */
module SecretFields {
  import opened Wrappers
  import opened SecretBox

  /** deterrent.tuya.<key>, or notifications.channels[i].<key>. */
  function Field(cfg: Value, owner: Owner, key: string): Option<Value> {
    match owner
    case Tuya => Get(Get(Get(Some(cfg), "deterrent"), "tuya"), key)
    case Channel(i) => Get(Item(Get(Get(Some(cfg), "notifications"), "channels"), i), key)
  }

  predicate IsSecret(owner: Owner, key: string) {
    match owner
    case Tuya => key == "api_key" || key == "api_secret"
    case Channel(_) =>
      key == "webhook_url" || key == "smtp_pass" || key == "auth_token" || key == "token" || key == "password"
  }

  lemma MappedField(cfg: Value, f: Change, owner: Owner, key: string)
    ensures var v := Field(cfg, owner, key);
      Field(Mapped(cfg, f), owner, key)
      == if IsSecret(owner, key) && v.Some? && v.value.Str? && v.value.text != ""
         then Some(Str(f(Site(owner, key), v.value.text))) else v
  {
    MappedHolder(cfg, f, owner);
    TuyaKeysAre(key);
    ChannelKeysAre(key);
    hide Mapped;
  }

  lemma TuyaKeysAre(key: string)
    ensures key in TUYA_KEYS <==> key == "api_key" || key == "api_secret"
  {
    assert TUYA_KEYS[0] == "api_key" && TUYA_KEYS[1] == "api_secret";
  }

  lemma ChannelKeysAre(key: string)
    ensures key in CHANNEL_KEYS <==>
      key == "webhook_url" || key == "smtp_pass" || key == "auth_token" || key == "token" || key == "password"
  {
    var keys := CHANNEL_KEYS;
    assert keys[0] == "webhook_url" && keys[1] == "smtp_pass" && keys[2] == "auth_token";
    assert keys[3] == "token" && keys[4] == "password";
  }

  /** After encrypting, the nonempty plaintext of a secret field is its token after the prefix
      enc:v1:, and any other field is as it was. */
  lemma EncryptedField(cfg: Value, c: Cipher, owner: Owner, key: string)
    ensures var v := Field(cfg, owner, key);
      Field(Mapped(cfg, Encrypting(c)), owner, key)
      == if IsSecret(owner, key) && v.Some? && v.value.Str? && v.value.text != "" && !("enc:v1:" <= v.value.text)
         then Some(Str("enc:v1:" + c.enc(Site(owner, key), v.value.text))) else v
  {
    MappedField(cfg, Encrypting(c), owner, key);
    hide Mapped;
  }

  /** After decrypting, a secret field with the prefix is what its token decrypts to. */
  lemma DecryptedField(cfg: Value, c: Cipher, owner: Owner, key: string)
    requires Decryptable(cfg, c)
    ensures var v := Field(cfg, owner, key);
      if IsSecret(owner, key) && v.Some? && v.value.Str? && "enc:v1:" <= v.value.text then
        && c.dec(v.value.text[7..]).Some?
        && Field(Mapped(cfg, Decrypting(c)), owner, key) == Some(Str(c.dec(v.value.text[7..]).value))
      else Field(Mapped(cfg, Decrypting(c)), owner, key) == v
  {
    MappedField(cfg, Decrypting(c), owner, key);
    TuyaKeysAre(key);
    ChannelKeysAre(key);
    hide Mapped;
    var v := Field(cfg, owner, key);
    if IsSecret(owner, key) && v.Some? && v.value.Str? && "enc:v1:" <= v.value.text {
      assert Secret(cfg, Site(owner, key)) == Some(v.value.text);
    }
  }

  // ---------------------------------------------------------------------------------------
  // How many fields are converted
  // ---------------------------------------------------------------------------------------

  ghost function KeySites(cfg: Value, x: Conversion, owner: Owner, keys: seq<string>): set<Site> {
    set k | k in keys && Wanted(cfg, x, Site(owner, k)) :: Site(owner, k)
  }

  ghost function SitesOf(cfg: Value, x: Conversion, i: nat): set<Site> {
    KeySites(cfg, x, Channel(i), CHANNEL_KEYS)
  }

  ghost function CountOf(cfg: Value, x: Conversion, i: nat): nat {
    CountKeys(cfg, x, Channel(i), CHANNEL_KEYS)
  }

  ghost function ChannelSites(cfg: Value, x: Conversion, n: nat): set<Site> {
    if n == 0 then {} else ChannelSites(cfg, x, n - 1) + SitesOf(cfg, x, n - 1)
  }

  lemma {:induction false} CountKeysIs(cfg: Value, x: Conversion, owner: Owner, keys: seq<string>)
    requires forall i, j :: 0 <= i < j < |keys| ==> keys[i] != keys[j]
    ensures CountKeys(cfg, x, owner, keys) == |KeySites(cfg, x, owner, keys)|
  {
    if keys == [] {
    } else {
      var front, last := keys[..|keys| - 1], keys[|keys| - 1];
      CountKeysIs(cfg, x, owner, front);
      assert keys == front + [last] && last !in front;
      hide Wanted;
      OneMoreKey(cfg, x, owner, front, last);
    }
  }

  lemma OneMoreKey(cfg: Value, x: Conversion, owner: Owner, front: seq<string>, last: string)
    requires last !in front
    ensures |KeySites(cfg, x, owner, front + [last])|
         == |KeySites(cfg, x, owner, front)| + if Wanted(cfg, x, Site(owner, last)) then 1 else 0
  {
    hide Wanted;
    var more := if Wanted(cfg, x, Site(owner, last)) then {Site(owner, last)} else {};
    assert KeySites(cfg, x, owner, front + [last]) == KeySites(cfg, x, owner, front) + more;
    assert Site(owner, last) !in KeySites(cfg, x, owner, front);
  }

  lemma {:induction false} ChannelSitesBelow(cfg: Value, x: Conversion, n: nat)
    ensures forall site :: site in ChannelSites(cfg, x, n) <==>
              site.owner.Channel? && site.owner.index < n && site.key in CHANNEL_KEYS && Wanted(cfg, x, site)
  {
    if n == 0 {
    } else {
      ChannelSitesBelow(cfg, x, n - 1);
      forall site ensures site in KeySites(cfg, x, Channel(n - 1), CHANNEL_KEYS)
         <==> site.owner == Channel(n - 1) && site.key in CHANNEL_KEYS && Wanted(cfg, x, site)
      {
        assert site == Site(site.owner, site.key);
      }
    }
  }

  lemma {:induction false} CountChannelsIs(cfg: Value, x: Conversion, n: nat)
    ensures CountChannels(cfg, x, n) == |ChannelSites(cfg, x, n)|
  {
    hide *;
    if n == 0 {
      NoChannel(cfg, x);
    } else {
      CountChannelsIs(cfg, x, n - 1);
      OneMoreChannel(cfg, x, n);
      ChannelCountIs(cfg, x, n - 1);
      ChannelsApart(cfg, x, n - 1);
      SizeOfBoth(ChannelSites(cfg, x, n - 1), SitesOf(cfg, x, n - 1));
    }
  }

  lemma NoChannel(cfg: Value, x: Conversion)
    ensures CountChannels(cfg, x, 0) == |ChannelSites(cfg, x, 0)| == 0
  {
  }

  lemma SizeOfBoth(a: set<Site>, b: set<Site>)
    requires a !! b
    ensures |a + b| == |a| + |b|
  {
  }

  lemma OneMoreChannel(cfg: Value, x: Conversion, n: nat)
    requires n > 0
    ensures CountChannels(cfg, x, n) == CountChannels(cfg, x, n - 1) + CountOf(cfg, x, n - 1)
    ensures ChannelSites(cfg, x, n) == ChannelSites(cfg, x, n - 1) + SitesOf(cfg, x, n - 1)
  {
    hide SitesOf, CountKeys;
  }

  lemma ChannelCountIs(cfg: Value, x: Conversion, i: nat)
    ensures CountOf(cfg, x, i) == |SitesOf(cfg, x, i)|
  {
    hide CountKeys, KeySites;
    ChannelKeysDiffer();
    CountKeysIs(cfg, x, Channel(i), CHANNEL_KEYS);
  }

  lemma ChannelKeysDiffer()
    ensures forall i, j :: 0 <= i < j < |CHANNEL_KEYS| ==> CHANNEL_KEYS[i] != CHANNEL_KEYS[j]
  {
    var keys := CHANNEL_KEYS;
    assert keys[0][0] == 'w' && keys[1][0] == 's' && keys[2][0] == 'a' && keys[3][0] == 't' && keys[4][0] == 'p';
  }

  lemma ChannelsApart(cfg: Value, x: Conversion, n: nat)
    ensures ChannelSites(cfg, x, n) !! SitesOf(cfg, x, n)
  {
    ChannelSitesBelow(cfg, x, n);
    hide Wanted, ChannelSites;
  }

  /** The returned count is the number of fields that are converted. */
  lemma CountIsNumber(cfg: Value, x: Conversion, sites: set<Site>)
    requires forall site :: site in sites <==> Wanted(cfg, x, site)
    ensures Count(cfg, x) == |sites|
  {
    var n := |Channels(cfg)|;
    assert Count(cfg, x) == CountKeys(cfg, x, Tuya, TUYA_KEYS) + CountChannels(cfg, x, n);
    CountKeysIs(cfg, x, Tuya, TUYA_KEYS);
    hide *;
    CountChannelsIs(cfg, x, n);
    var a, b := KeySites(cfg, x, Tuya, TUYA_KEYS), ChannelSites(cfg, x, n);
    forall site ensures site in sites <==> site in a || site in b {
      WantedWhere(cfg, x, site);
    }
    assert sites == a + b;
    NothingShared(cfg, x, n);
  }

  lemma WantedWhere(cfg: Value, x: Conversion, site: Site)
    ensures site in KeySites(cfg, x, Tuya, TUYA_KEYS) <==> site.owner.Tuya? && Wanted(cfg, x, site)
    ensures site in ChannelSites(cfg, x, |Channels(cfg)|) <==> site.owner.Channel? && Wanted(cfg, x, site)
  {
    ChannelSitesBelow(cfg, x, |Channels(cfg)|);
    assert site == Site(site.owner, site.key);
  }

  lemma NothingShared(cfg: Value, x: Conversion, n: nat)
    ensures KeySites(cfg, x, Tuya, TUYA_KEYS) !! ChannelSites(cfg, x, n)
  {
    ChannelSitesBelow(cfg, x, n);
    hide Wanted, ChannelSites;
  }
}
