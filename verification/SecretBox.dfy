/**
 Encrypting the sensitive fields of a configuration in place (shared/secret_box.py).

 A configuration is a tree of dictionaries and lists without sharing. The program walks to one
 sensitive field after the other; `Mapped` says what that amounts to: one function applied to
 every sensitive string of the tree. The cipher is any pair of functions that undo each other;
 every field may be encrypted with randomness of its own.
 */
module SecretBox {
  import opened Wrappers

  datatype Value = Str(text: string) | Dict(entries: map<string, Value>) | List(items: seq<Value>) | Other(id: int)

  const PREFIX := "enc:v1:"

  predicate IsEncrypted(v: string) {
    PREFIX <= v
  }

  /** Where a sensitive string is: a key of the tuya section or of one of the channels. */
  datatype Owner = Tuya | Channel(index: nat)
  datatype Site = Site(owner: Owner, key: string)

  const TUYA_KEYS: seq<string> := ["api_key", "api_secret"]
  const CHANNEL_KEYS: seq<string> := ["webhook_url", "smtp_pass", "auth_token", "token", "password"]

  /** Encryption may differ from site to site; decryption fails on what it cannot authenticate. */
  datatype Cipher = Cipher(enc: (Site, string) -> string, dec: string -> Option<string>)

  ghost predicate Sound(c: Cipher) {
    forall site, v :: c.dec(c.enc(site, v)) == Some(v)
  }

  function Encrypt(c: Cipher, site: Site, v: string): string {
    if v == "" || IsEncrypted(v) then v else PREFIX + c.enc(site, v)
  }

  function Decrypt(c: Cipher, v: string): Option<string> {
    if !IsEncrypted(v) then Some(v) else c.dec(v[|PREFIX|..])
  }

  lemma DecryptUndoes(c: Cipher, site: Site, v: string)
    requires Sound(c)
    ensures IsEncrypted(Encrypt(c, site, v)) <==> v != ""
    ensures !IsEncrypted(v) ==> Decrypt(c, Encrypt(c, site, v)) == Some(v)
  {
  }

  // ---------------------------------------------------------------------------------------
  // One function on every sensitive string
  // ---------------------------------------------------------------------------------------

  type Change = (Site, string) -> string

  function Leaf(v: Value, site: Site, f: Change): Value {
    if v.Str? && v.text != "" then Str(f(site, v.text)) else v
  }

  /** The dictionary with the sensitive ones among its keys changed. */
  function MapKeys(m: map<string, Value>, keys: seq<string>, owner: Owner, f: Change): map<string, Value> {
    map k | k in m :: if k in keys then Leaf(m[k], Site(owner, k), f) else m[k]
  }

  function MapTuya(v: Value, keys: seq<string>, f: Change): Value {
    if v.Dict? then Dict(MapKeys(v.entries, keys, Tuya, f)) else v
  }

  function MapDeterrent(v: Value, keys: seq<string>, f: Change): Value {
    if v.Dict? && "tuya" in v.entries then Dict(v.entries["tuya" := MapTuya(v.entries["tuya"], keys, f)]) else v
  }

  function MapChannel(v: Value, i: nat, f: Change): Value {
    if v.Dict? then Dict(MapKeys(v.entries, CHANNEL_KEYS, Channel(i), f)) else v
  }

  function MapItems(items: seq<Value>, f: Change): (r: seq<Value>)
    ensures |r| == |items| && forall i :: 0 <= i < |r| ==> r[i] == MapChannel(items[i], i, f)
  {
    seq(|items|, i requires 0 <= i < |items| => MapChannel(items[i], i, f))
  }

  function MapChannels(v: Value, f: Change): Value {
    if v.List? then List(MapItems(v.items, f)) else v
  }

  function MapNotifications(v: Value, f: Change): Value {
    if v.Dict? && "channels" in v.entries then
      Dict(v.entries["channels" := MapChannels(v.entries["channels"], f)])
    else v
  }

  function MapTop(cfg: Value, keys: seq<string>, f: Change): Value {
    if cfg.Dict? && "deterrent" in cfg.entries then
      Dict(cfg.entries["deterrent" := MapDeterrent(cfg.entries["deterrent"], keys, f)])
    else cfg
  }

  function MapSecond(cfg: Value, f: Change): Value {
    if cfg.Dict? && "notifications" in cfg.entries then
      Dict(cfg.entries["notifications" := MapNotifications(cfg.entries["notifications"], f)])
    else cfg
  }

  /** Every sensitive string of the configuration changed, and nothing else. */
  function Mapped(cfg: Value, f: Change): Value {
    MapSecond(MapTop(cfg, TUYA_KEYS, f), f)
  }

  // ---------------------------------------------------------------------------------------
  // The sensitive strings
  // ---------------------------------------------------------------------------------------

  function Get(v: Option<Value>, key: string): Option<Value> {
    if v.Some? && v.value.Dict? && key in v.value.entries then Some(v.value.entries[key]) else None
  }

  function Item(v: Option<Value>, i: nat): Option<Value> {
    if v.Some? && v.value.List? && i < |v.value.items| then Some(v.value.items[i]) else None
  }

  function Holder(cfg: Value, owner: Owner): Option<Value> {
    match owner
    case Tuya => Get(Get(Some(cfg), "deterrent"), "tuya")
    case Channel(i) => Item(Get(Get(Some(cfg), "notifications"), "channels"), i)
  }

  predicate Sensitive(site: Site) {
    site.key in if site.owner.Tuya? then TUYA_KEYS else CHANNEL_KEYS
  }

  /** The nonempty string at a sensitive site. */
  function Secret(cfg: Value, site: Site): Option<string> {
    var v := Get(Holder(cfg, site.owner), site.key);
    if Sensitive(site) && v.Some? && v.value.Str? && v.value.text != "" then Some(v.value.text) else None
  }

  /** Two changes have the same effect on the sensitive strings of a configuration. */
  ghost predicate Agree(cfg: Value, f: Change, g: Change) {
    forall site :: Secret(cfg, site).Some? ==> f(site, Secret(cfg, site).value) == g(site, Secret(cfg, site).value)
  }

  lemma KeysAgree(m: map<string, Value>, keys: seq<string>, owner: Owner, f: Change, g: Change)
    requires forall k :: k in keys && k in m && m[k].Str? && m[k].text != ""
               ==> f(Site(owner, k), m[k].text) == g(Site(owner, k), m[k].text)
    ensures MapKeys(m, keys, owner, f) == MapKeys(m, keys, owner, g)
  {
  }

  lemma AgreeAt(cfg: Value, f: Change, g: Change, owner: Owner, v: Value)
    requires Agree(cfg, f, g) && Holder(cfg, owner) == Some(v) && v.Dict?
    ensures var keys := if owner.Tuya? then TUYA_KEYS else CHANNEL_KEYS;
            MapKeys(v.entries, keys, owner, f) == MapKeys(v.entries, keys, owner, g)
  {
    var keys := if owner.Tuya? then TUYA_KEYS else CHANNEL_KEYS;
    forall k | k in keys && k in v.entries && v.entries[k].Str? && v.entries[k].text != ""
      ensures f(Site(owner, k), v.entries[k].text) == g(Site(owner, k), v.entries[k].text)
    {
      assert Secret(cfg, Site(owner, k)) == Some(v.entries[k].text);
    }
    KeysAgree(v.entries, keys, owner, f, g);
  }

  /** A change matters only where there is a sensitive string. */
  lemma MappedAgrees(cfg: Value, f: Change, g: Change)
    requires Agree(cfg, f, g)
    ensures Mapped(cfg, f) == Mapped(cfg, g)
  {
    var t := Holder(cfg, Tuya);
    if t.Some? && t.value.Dict? {
      AgreeAt(cfg, f, g, Tuya, t.value);
    }
    var l := Get(Get(Some(cfg), "notifications"), "channels");
    if l.Some? && l.value.List? {
      forall i | 0 <= i < |l.value.items|
        ensures MapChannel(l.value.items[i], i, f) == MapChannel(l.value.items[i], i, g)
      {
        if l.value.items[i].Dict? {
          AgreeAt(cfg, f, g, Channel(i), l.value.items[i]);
        }
      }
      assert MapItems(l.value.items, f) == MapItems(l.value.items, g);
    }
  }

  /** Mapping reaches every sensitive string. */
  lemma MappedSecret(cfg: Value, f: Change, site: Site)
    ensures var v := Secret(cfg, site);
            Secret(Mapped(cfg, f), site) == if v.Some? && f(site, v.value) != "" then Some(f(site, v.value)) else None
  {
    MappedHolder(cfg, f, site.owner);
  }

  lemma MappedHolder(cfg: Value, f: Change, owner: Owner)
    ensures var h := Holder(cfg, owner);
            Holder(Mapped(cfg, f), owner) ==
              if h.Some? then
                Some(if owner.Tuya? then MapTuya(h.value, TUYA_KEYS, f) else MapChannel(h.value, owner.index, f))
              else None
  {
  }

  ghost predicate Keeps(cfg: Value, f: Change) {
    forall site :: Secret(cfg, site).Some? ==> f(site, Secret(cfg, site).value) != ""
  }

  function Then(f: Change, g: Change): Change {
    (site, v) => g(site, f(site, v))
  }

  lemma KeysCompose(m: map<string, Value>, keys: seq<string>, owner: Owner, f: Change, g: Change)
    requires forall k :: k in keys && k in m && m[k].Str? && m[k].text != "" ==> f(Site(owner, k), m[k].text) != ""
    ensures MapKeys(MapKeys(m, keys, owner, f), keys, owner, g) == MapKeys(m, keys, owner, Then(f, g))
  {
  }

  lemma ComposeAt(cfg: Value, f: Change, g: Change, owner: Owner, v: Value)
    requires Keeps(cfg, f) && Holder(cfg, owner) == Some(v) && v.Dict?
    ensures var keys := if owner.Tuya? then TUYA_KEYS else CHANNEL_KEYS;
            MapKeys(MapKeys(v.entries, keys, owner, f), keys, owner, g) == MapKeys(v.entries, keys, owner, Then(f, g))
  {
    var keys := if owner.Tuya? then TUYA_KEYS else CHANNEL_KEYS;
    forall k | k in keys && k in v.entries && v.entries[k].Str? && v.entries[k].text != ""
      ensures f(Site(owner, k), v.entries[k].text) != ""
    {
      assert Secret(cfg, Site(owner, k)) == Some(v.entries[k].text);
    }
    KeysCompose(v.entries, keys, owner, f, g);
  }

  lemma TopThenSecond(cfg: Value, keys: seq<string>, f: Change, g: Change)
    ensures MapTop(MapSecond(cfg, f), keys, g) == MapSecond(MapTop(cfg, keys, g), f)
  {
  }

  /** Writing the same key twice is writing it once. */
  lemma TwiceIsOnce(m: map<string, Value>, key: string, v: Value, w: Value)
    ensures m[key := v][key := w] == m[key := w]
  {
  }

  lemma TopComposes(cfg: Value, f: Change, g: Change)
    requires Keeps(cfg, f)
    ensures MapTop(MapTop(cfg, TUYA_KEYS, f), TUYA_KEYS, g) == MapTop(cfg, TUYA_KEYS, Then(f, g))
  {
    if cfg.Dict? && "deterrent" in cfg.entries {
      var d := cfg.entries["deterrent"];
      if d.Dict? && "tuya" in d.entries {
        var t := d.entries["tuya"];
        assert Holder(cfg, Tuya) == Some(t);
        if t.Dict? { ComposeAt(cfg, f, g, Tuya, t); }
        TwiceIsOnce(d.entries, "tuya", MapTuya(t, TUYA_KEYS, f), MapTuya(t, TUYA_KEYS, Then(f, g)));
      }
      TwiceIsOnce(cfg.entries, "deterrent", MapDeterrent(d, TUYA_KEYS, f), MapDeterrent(d, TUYA_KEYS, Then(f, g)));
    }
  }

  lemma SecondComposes(cfg: Value, f: Change, g: Change)
    requires Keeps(cfg, f)
    ensures MapSecond(MapSecond(cfg, f), g) == MapSecond(cfg, Then(f, g))
  {
    if cfg.Dict? && "notifications" in cfg.entries {
      var n := cfg.entries["notifications"];
      if n.Dict? && "channels" in n.entries {
        var l := n.entries["channels"];
        if l.List? { ItemsCompose(cfg, f, g, l.items); }
        TwiceIsOnce(n.entries, "channels", MapChannels(l, f), MapChannels(l, Then(f, g)));
      }
      TwiceIsOnce(cfg.entries, "notifications", MapNotifications(n, f), MapNotifications(n, Then(f, g)));
    }
  }

  lemma ItemsCompose(cfg: Value, f: Change, g: Change, items: seq<Value>)
    requires Keeps(cfg, f) && Get(Get(Some(cfg), "notifications"), "channels") == Some(List(items))
    ensures MapItems(MapItems(items, f), g) == MapItems(items, Then(f, g))
  {
    forall i | 0 <= i < |items|
      ensures MapChannel(MapChannel(items[i], i, f), i, g) == MapChannel(items[i], i, Then(f, g))
    {
      if items[i].Dict? {
        ComposeAt(cfg, f, g, Channel(i), items[i]);
      }
    }
  }

  /** Two changes after each other are one, if the first leaves no string empty. */
  lemma MappedComposes(cfg: Value, f: Change, g: Change)
    requires Keeps(cfg, f)
    ensures Mapped(Mapped(cfg, f), g) == Mapped(cfg, Then(f, g))
  {
    var top := MapTop(cfg, TUYA_KEYS, f);
    TopThenSecond(top, TUYA_KEYS, f, g);
    TopComposes(cfg, f, g);
    TopThenSecond(cfg, TUYA_KEYS, f, Then(f, g));
    SecondComposes(cfg, f, g);
    TopThenSecond(MapSecond(cfg, f), TUYA_KEYS, g, Then(f, g));
    TopThenSecond(cfg, TUYA_KEYS, Then(f, g), Then(f, g));
  }

  function Same(): Change {
    (site, v) => v
  }

  lemma MappedSame(cfg: Value)
    ensures Mapped(cfg, Same()) == cfg
  {
    KeysSame(cfg);
    ItemsSame(cfg);
  }

  lemma KeysSame(cfg: Value)
    ensures MapTop(cfg, TUYA_KEYS, Same()) == cfg
  {
    var d := Get(Some(cfg), "deterrent");
    if d.Some? {
      var t := Get(d, "tuya");
      if t.Some? {
        assert t.value.Dict? ==> MapKeys(t.value.entries, TUYA_KEYS, Tuya, Same()) == t.value.entries;
        assert d.value.entries["tuya" := t.value] == d.value.entries;
      }
      assert cfg.entries["deterrent" := d.value] == cfg.entries;
    }
  }

  lemma ItemsSame(cfg: Value)
    ensures MapSecond(cfg, Same()) == cfg
  {
    var n := Get(Some(cfg), "notifications");
    if n.Some? {
      var l := Get(n, "channels");
      if l.Some? {
        if l.value.List? {
          forall i | 0 <= i < |l.value.items| ensures MapChannel(l.value.items[i], i, Same()) == l.value.items[i] {
            var v := l.value.items[i];
            assert v.Dict? ==> MapKeys(v.entries, CHANNEL_KEYS, Channel(i), Same()) == v.entries;
          }
          assert MapItems(l.value.items, Same()) == l.value.items;
        }
        assert n.value.entries["channels" := l.value] == n.value.entries;
      }
      assert cfg.entries["notifications" := n.value] == cfg.entries;
    }
  }

  // ---------------------------------------------------------------------------------------
  // What encrypting a configuration promises
  // ---------------------------------------------------------------------------------------

  function Encrypting(c: Cipher): Change {
    (site, v) => Encrypt(c, site, v)
  }

  function Decrypting(c: Cipher): Change {
    (site, v) => if Decrypt(c, v).Some? then Decrypt(c, v).value else v
  }

  ghost predicate HasPlaintext(cfg: Value) {
    exists site :: Secret(cfg, site).Some? && !IsEncrypted(Secret(cfg, site).value)
  }

  ghost predicate Decryptable(cfg: Value, c: Cipher) {
    forall site :: Secret(cfg, site).Some? ==> Decrypt(c, Secret(cfg, site).value).Some?
  }

  lemma EncryptingKeeps(cfg: Value, c: Cipher)
    ensures Keeps(cfg, Encrypting(c))
  {
  }

  lemma NoPlaintextLeft(cfg: Value, c: Cipher)
    ensures !HasPlaintext(Mapped(cfg, Encrypting(c)))
  {
  }

  lemma EncryptingTwice(cfg: Value, c: Cipher)
    ensures Mapped(Mapped(cfg, Encrypting(c)), Encrypting(c)) == Mapped(cfg, Encrypting(c))
  {
    EncryptingKeeps(cfg, c);
    MappedComposes(cfg, Encrypting(c), Encrypting(c));
    MappedAgrees(cfg, Then(Encrypting(c), Encrypting(c)), Encrypting(c));
  }

  /** The configuration with its sensitive strings blotted out. */
  function Redacted(cfg: Value): Value {
    Mapped(cfg, (site, v) => "*")
  }

  lemma NothingElseChanges(cfg: Value, c: Cipher)
    ensures Redacted(Mapped(cfg, Encrypting(c))) == Redacted(cfg)
  {
    EncryptingKeeps(cfg, c);
    MappedComposes(cfg, Encrypting(c), (site, v) => "*");
    MappedAgrees(cfg, Then(Encrypting(c), (site, v) => "*"), (site, v) => "*");
  }

  /** A sensitive string that encrypting and decrypting brings back: one without the prefix, or
      one that happens to be its own decryption. */
  predicate Recoverable(c: Cipher, v: string) {
    !IsEncrypted(v) || c.dec(v[|PREFIX|..]) == Some(v)
  }

  /**
   Decrypting succeeds after encrypting and restores the configuration, exactly if every
   sensitive string is recoverable; so it does whenever none of them has the prefix.
   */
  lemma RoundTripIff(cfg: Value, c: Cipher)
    requires Sound(c)
    ensures var e := Mapped(cfg, Encrypting(c));
            Decryptable(e, c) && Mapped(e, Decrypting(c)) == cfg
            <==> forall site :: Secret(cfg, site).Some? ==> Recoverable(c, Secret(cfg, site).value)
  {
    var e := Mapped(cfg, Encrypting(c));
    forall site ensures Secret(cfg, site).Some? ==> Secret(e, site) == Some(Encrypt(c, site, Secret(cfg, site).value)) {
      MappedSecret(cfg, Encrypting(c), site);
    }
    if forall site :: Secret(cfg, site).Some? ==> Recoverable(c, Secret(cfg, site).value) {
      RoundTrip(cfg, c);
    }
    if Decryptable(e, c) && Mapped(e, Decrypting(c)) == cfg {
      forall site | Secret(cfg, site).Some? ensures Recoverable(c, Secret(cfg, site).value) {
        MappedSecret(e, Decrypting(c), site);
      }
    }
  }

  /** Tokens are longer than what they decrypt to. */
  ghost predicate Lengthens(c: Cipher) {
    forall token :: c.dec(token).Some? ==> |c.dec(token).value| < |token|
  }

  /** For such a cipher the condition is just that no sensitive string has the prefix yet. */
  lemma RoundTripWithoutPrefixIff(cfg: Value, c: Cipher)
    requires Sound(c) && Lengthens(c)
    ensures var e := Mapped(cfg, Encrypting(c));
            Decryptable(e, c) && Mapped(e, Decrypting(c)) == cfg
            <==> forall site :: Secret(cfg, site).Some? ==> !IsEncrypted(Secret(cfg, site).value)
  {
    RoundTripIff(cfg, c);
    forall site | Secret(cfg, site).Some?
      ensures Recoverable(c, Secret(cfg, site).value) <==> !IsEncrypted(Secret(cfg, site).value)
    {
      PrefixedIsLost(c, Secret(cfg, site).value);
    }
  }

  lemma PrefixedIsLost(c: Cipher, v: string)
    requires Lengthens(c)
    ensures Recoverable(c, v) <==> !IsEncrypted(v)
  {
    if IsEncrypted(v) {
      assert c.dec(v[|PREFIX|..]).Some? ==> |c.dec(v[|PREFIX|..]).value| < |v|;
    }
  }

  lemma RoundTrip(cfg: Value, c: Cipher)
    requires Sound(c)
    requires forall site :: Secret(cfg, site).Some? ==> Recoverable(c, Secret(cfg, site).value)
    ensures var e := Mapped(cfg, Encrypting(c)); Decryptable(e, c) && Mapped(e, Decrypting(c)) == cfg
  {
    var e := Mapped(cfg, Encrypting(c));
    forall site | Secret(e, site).Some? ensures Decrypt(c, Secret(e, site).value).Some? {
      MappedSecret(cfg, Encrypting(c), site);
      DecryptUndoes(c, site, Secret(cfg, site).value);
    }
    EncryptingKeeps(cfg, c);
    MappedComposes(cfg, Encrypting(c), Decrypting(c));
    forall site | Secret(cfg, site).Some?
      ensures Then(Encrypting(c), Decrypting(c))(site, Secret(cfg, site).value) == Secret(cfg, site).value
    {
      DecryptUndoes(c, site, Secret(cfg, site).value);
    }
    MappedAgrees(cfg, Then(Encrypting(c), Decrypting(c)), Same());
    MappedSame(cfg);
  }

  // ---------------------------------------------------------------------------------------
  // The walk
  // ---------------------------------------------------------------------------------------

  function SafeGet(cfg: Value, path: seq<string>): Option<Value>
    decreases |path|
  {
    if path == [] then Some(cfg)
    else if cfg.Dict? && path[0] in cfg.entries then SafeGet(cfg.entries[path[0]], path[1..])
    else None
  }

  /** Applies a function to the nonempty string at the end of the path, if there is one. */
  function WalkAndApply(cfg: Value, path: seq<string>, f: string -> string): (Value, bool)
    decreases |path|
  {
    if path == [] || !cfg.Dict? || path[0] !in cfg.entries then (cfg, false)
    else
      var v := cfg.entries[path[0]];
      if |path| == 1 then
        if v.Str? && v.text != "" then (Dict(cfg.entries[path[0] := Str(f(v.text))]), true) else (cfg, false)
      else
        var (w, applied) := WalkAndApply(v, path[1..], f);
        (Dict(cfg.entries[path[0] := w]), applied)
  }

  function TuyaPath(key: string): seq<string> {
    ["deterrent", "tuya", key]
  }

  lemma GetsSecret(cfg: Value, key: string)
    requires key in TUYA_KEYS
    ensures var v := SafeGet(cfg, TuyaPath(key));
            Secret(cfg, Site(Tuya, key))
            == if v.Some? && v.value.Str? && v.value.text != "" then Some(v.value.text) else None
  {
  }

  /** Walking to one tuya key changes the configuration as `MapTop` says. */
  lemma WalkIsMap(cfg: Value, key: string, f: string -> string, g: Change)
    requires key in TUYA_KEYS
    requires Secret(cfg, Site(Tuya, key)).Some?
    requires f(Secret(cfg, Site(Tuya, key)).value) == g(Site(Tuya, key), Secret(cfg, Site(Tuya, key)).value)
    ensures WalkAndApply(cfg, TuyaPath(key), f) == (MapTop(cfg, [key], g), true)
  {
    var d := cfg.entries["deterrent"];
    var t := d.entries["tuya"];
    var p := TuyaPath(key);
    assert p[1..] == ["tuya", key] && p[1..][1..] == [key];
    var t' := t.entries[key := Str(f(t.entries[key].text))];
    assert t' == MapKeys(t.entries, [key], Tuya, g);
    assert WalkAndApply(t, [key], f) == (Dict(t'), true);
    assert WalkAndApply(d, ["tuya", key], f) == (Dict(d.entries["tuya" := Dict(t')]), true);
  }

  // ---------------------------------------------------------------------------------------
  // In place
  // ---------------------------------------------------------------------------------------

  /** What is done to a sensitive string: those that are wanted are converted, unless that
      raises an exception. */
  datatype Conversion = Conversion(wanted: string -> bool, convert: (Site, string) -> Option<string>)

  function Encryption(c: Cipher): Conversion {
    Conversion(v => !IsEncrypted(v), (site, v) => Some(Encrypt(c, site, v)))
  }

  function Decryption(c: Cipher): Conversion {
    Conversion(v => IsEncrypted(v), (site, v) => Decrypt(c, v))
  }

  function Total(x: Conversion): Change {
    (site, v) => if x.wanted(v) && x.convert(site, v).Some? then x.convert(site, v).value else v
  }

  predicate Wanted(cfg: Value, x: Conversion, site: Site) {
    Secret(cfg, site).Some? && x.wanted(Secret(cfg, site).value)
  }

  predicate Raises(cfg: Value, x: Conversion, site: Site) {
    Wanted(cfg, x, site) && x.convert(site, Secret(cfg, site).value).None?
  }

  function CountKeys(cfg: Value, x: Conversion, owner: Owner, keys: seq<string>): nat {
    if keys == [] then 0
    else CountKeys(cfg, x, owner, keys[..|keys| - 1]) + if Wanted(cfg, x, Site(owner, keys[|keys| - 1])) then 1 else 0
  }

  function CountChannels(cfg: Value, x: Conversion, n: nat): nat {
    if n == 0 then 0 else CountChannels(cfg, x, n - 1) + CountKeys(cfg, x, Channel(n - 1), CHANNEL_KEYS)
  }

  function Channels(cfg: Value): seq<Value> {
    var l := Get(Get(Some(cfg), "notifications"), "channels");
    if l.Some? && l.value.List? then l.value.items else []
  }

  /** How many sensitive strings of the configuration are wanted. */
  function Count(cfg: Value, x: Conversion): nat {
    CountKeys(cfg, x, Tuya, TUYA_KEYS) + CountChannels(cfg, x, |Channels(cfg)|)
  }

  lemma {:induction false} CountKeysZero(cfg: Value, x: Conversion, owner: Owner, keys: seq<string>)
    ensures CountKeys(cfg, x, owner, keys) == 0 <==> forall k :: k in keys ==> !Wanted(cfg, x, Site(owner, k))
  {
    if keys == [] {
    } else {
      CountKeysZero(cfg, x, owner, keys[..|keys| - 1]);
      assert keys == keys[..|keys| - 1] + [keys[|keys| - 1]];
    }
  }

  lemma {:induction false} CountChannelsZero(cfg: Value, x: Conversion, n: nat)
    ensures CountChannels(cfg, x, n) == 0
       <==> forall i: nat, k :: i < n && k in CHANNEL_KEYS ==> !Wanted(cfg, x, Site(Channel(i), k))
  {
    if n == 0 {
    } else {
      CountChannelsZero(cfg, x, n - 1);
      CountKeysZero(cfg, x, Channel(n - 1), CHANNEL_KEYS);
    }
  }

  /** Nothing is counted exactly if nothing is wanted. */
  lemma CountZeroIff(cfg: Value, x: Conversion)
    ensures Count(cfg, x) == 0 <==> forall site :: !Wanted(cfg, x, site)
  {
    CountKeysZero(cfg, x, Tuya, TUYA_KEYS);
    CountChannelsZero(cfg, x, |Channels(cfg)|);
    if Count(cfg, x) == 0 {
      forall site ensures !Wanted(cfg, x, site) {
        if Secret(cfg, site).Some? && site.owner.Channel? {
          assert site.owner == Channel(site.owner.index) && site.owner.index < |Channels(cfg)|;
          assert site == Site(Channel(site.owner.index), site.key);
        }
      }
    }
  }

  lemma TuyaFacts(cfg: Value, keys: seq<string>, key: string, f: Change)
    requires key in TUYA_KEYS && key !in keys
    ensures MapTop(cfg, [], f) == cfg
    ensures Secret(MapTop(cfg, keys, f), Site(Tuya, key)) == Secret(cfg, Site(Tuya, key))
    ensures MapTop(MapTop(cfg, keys, f), [key], f) == MapTop(cfg, keys + [key], f)
  {
    if cfg.Dict? && "deterrent" in cfg.entries {
      var d := cfg.entries["deterrent"];
      if d.Dict? && "tuya" in d.entries {
        var t := d.entries["tuya"];
        if t.Dict? {
          assert MapKeys(t.entries, [], Tuya, f) == t.entries;
          assert MapKeys(MapKeys(t.entries, keys, Tuya, f), [key], Tuya, f)
              == MapKeys(t.entries, keys + [key], Tuya, f);
        }
        TwiceIsOnce(d.entries, "tuya", MapTuya(t, keys, f), MapTuya(t, keys + [key], f));
        assert d.entries["tuya" := t] == d.entries;
      }
      TwiceIsOnce(cfg.entries, "deterrent", MapDeterrent(d, keys, f), MapDeterrent(d, keys + [key], f));
      assert cfg.entries["deterrent" := d] == cfg.entries;
    }
  }

  lemma TuyaIdle(cfg: Value, key: string, f: Change)
    requires key in TUYA_KEYS
    requires var v := Secret(cfg, Site(Tuya, key)); v.Some? ==> f(Site(Tuya, key), v.value) == v.value
    ensures MapTop(cfg, [key], f) == cfg
  {
    var t := Holder(cfg, Tuya);
    if t.Some? {
      var d := cfg.entries["deterrent"];
      assert t.value.Dict? ==> MapKeys(t.value.entries, [key], Tuya, f) == t.value.entries;
      assert d.entries["tuya" := t.value] == d.entries;
    }
    if cfg.Dict? && "deterrent" in cfg.entries {
      assert cfg.entries["deterrent" := cfg.entries["deterrent"]] == cfg.entries;
    }
  }

  lemma KeysFacts(m: map<string, Value>, keys: seq<string>, key: string, owner: Owner, f: Change)
    requires key !in keys
    ensures MapKeys(m, [], owner, f) == m
    ensures key in MapKeys(m, keys, owner, f) <==> key in m
    ensures key in m ==> MapKeys(m, keys, owner, f)[key] == m[key]
    ensures MapKeys(m, keys + [key], owner, f)
         == if key in m then MapKeys(m, keys, owner, f)[key := Leaf(m[key], Site(owner, key), f)]
            else MapKeys(m, keys, owner, f)
  {
  }

  /** One key of a channel: converted if it is wanted, left alone if not. */
  lemma KeyStep(cfg: Value, entries: map<string, Value>, keys: seq<string>, key: string, i: nat, x: Conversion)
    requires Holder(cfg, Channel(i)) == Some(Dict(entries)) && key in CHANNEL_KEYS && key !in keys
    ensures var site, m := Site(Channel(i), key), MapKeys(entries, keys, Channel(i), Total(x));
            var after := MapKeys(entries, keys + [key], Channel(i), Total(x));
            if key in m && m[key].Str? && m[key].text != "" && x.wanted(m[key].text) then
              var converted := x.convert(site, m[key].text);
              && Wanted(cfg, x, site) && (Raises(cfg, x, site) <==> converted.None?)
              && (converted.Some? ==> after == m[key := Str(converted.value)])
            else !Wanted(cfg, x, site) && !Raises(cfg, x, site) && after == m
  {
  }

  class Config {
    var root: Value

    constructor (cfg: Value)
      ensures root == cfg
    {
      root := cfg;
    }

    method TuyaFields(x: Conversion) returns (ok: bool, count: nat)
      modifies this
      ensures ok ==> root == MapTop(old(root), TUYA_KEYS, Total(x)) && count == CountKeys(old(root), x, Tuya, TUYA_KEYS)
      ensures ok <==> forall k :: k in TUYA_KEYS ==> !Raises(old(root), x, Site(Tuya, k))
    {
      ghost var cfg := root;
      ghost var f := Total(x);
      count := 0;
      TuyaFacts(cfg, [], TUYA_KEYS[0], f);
      for i := 0 to |TUYA_KEYS|
        invariant root == MapTop(cfg, TUYA_KEYS[..i], f) && count == CountKeys(cfg, x, Tuya, TUYA_KEYS[..i])
        invariant forall k :: k in TUYA_KEYS[..i] ==> !Raises(cfg, x, Site(Tuya, k))
      {
        var key := TUYA_KEYS[i];
        assert TUYA_KEYS[..i + 1] == TUYA_KEYS[..i] + [key] && TUYA_KEYS[..i + 1][..i] == TUYA_KEYS[..i];
        TuyaFacts(cfg, TUYA_KEYS[..i], key, f);
        GetsSecret(root, key);
        var leaf := SafeGet(root, TuyaPath(key));
        if leaf.Some? && leaf.value.Str? && leaf.value.text != "" && x.wanted(leaf.value.text) {
          var converted := x.convert(Site(Tuya, key), leaf.value.text);
          if converted.None? {
            assert Raises(cfg, x, Site(Tuya, key));
            return false, count;
          }
          WalkIsMap(root, key, v => converted.value, f);
          root := WalkAndApply(root, TuyaPath(key), v => converted.value).0;
          count := count + 1;
        } else {
          TuyaIdle(root, key, f);
        }
      }
      assert TUYA_KEYS[..|TUYA_KEYS|] == TUYA_KEYS;
      return true, count;
    }

    /** The keys of one channel. */
    static method ChannelKeys(entries: map<string, Value>, i: nat, x: Conversion, ghost cfg: Value)
      returns (ok: bool, m: map<string, Value>, count: nat)
      requires Holder(cfg, Channel(i)) == Some(Dict(entries))
      ensures ok ==> m == MapKeys(entries, CHANNEL_KEYS, Channel(i), Total(x))
      ensures ok ==> count == CountKeys(cfg, x, Channel(i), CHANNEL_KEYS)
      ensures ok <==> forall k :: k in CHANNEL_KEYS ==> !Raises(cfg, x, Site(Channel(i), k))
    {
      m, count := entries, 0;
      KeysFacts(entries, [], CHANNEL_KEYS[0], Channel(i), Total(x));
      hide MapKeys, Wanted, Raises, Total, Holder;
      for j := 0 to |CHANNEL_KEYS|
        invariant m == MapKeys(entries, CHANNEL_KEYS[..j], Channel(i), Total(x))
        invariant count == CountKeys(cfg, x, Channel(i), CHANNEL_KEYS[..j])
        invariant forall k :: k in CHANNEL_KEYS[..j] ==> !Raises(cfg, x, Site(Channel(i), k))
      {
        var key := CHANNEL_KEYS[j];
        assert CHANNEL_KEYS[..j + 1] == CHANNEL_KEYS[..j] + [key] && CHANNEL_KEYS[..j + 1][..j] == CHANNEL_KEYS[..j];
        KeyStep(cfg, entries, CHANNEL_KEYS[..j], key, i, x);
        if key in m && m[key].Str? && m[key].text != "" && x.wanted(m[key].text) {
          var converted := x.convert(Site(Channel(i), key), m[key].text);
          if converted.None? {
            return false, m, count;
          }
          m := m[key := Str(converted.value)];
          count := count + 1;
        }
      }
      assert CHANNEL_KEYS[..|CHANNEL_KEYS|] == CHANNEL_KEYS;
      return true, m, count;
    }

    /** The channels of the list, one after the other. */
    static method ChannelItems(items: seq<Value>, x: Conversion, ghost cfg: Value)
      returns (ok: bool, mapped: seq<Value>, count: nat)
      requires Get(Get(Some(cfg), "notifications"), "channels") == Some(List(items))
      ensures ok ==> mapped == MapItems(items, Total(x)) && count == CountChannels(cfg, x, |items|)
      ensures ok <==> forall i: nat, k :: i < |items| && k in CHANNEL_KEYS ==> !Raises(cfg, x, Site(Channel(i), k))
    {
      mapped, count := [], 0;
      for i := 0 to |items|
        invariant |mapped| == i && forall j :: 0 <= j < i ==> mapped[j] == MapChannel(items[j], j, Total(x))
        invariant count == CountChannels(cfg, x, i)
        invariant forall j: nat, k :: j < i && k in CHANNEL_KEYS ==> !Raises(cfg, x, Site(Channel(j), k))
      {
        assert Holder(cfg, Channel(i)) == Some(items[i]);
        hide MapKeys, Total, Holder, Raises;
        if items[i].Dict? {
          var done, m, n := ChannelKeys(items[i].entries, i, x, cfg);
          if !done {
            return false, mapped, count;
          }
          mapped := mapped + [Dict(m)];
          count := count + n;
        } else {
          NoKeys(cfg, x, i, items[i]);
          mapped := mapped + [items[i]];
        }
      }
      return true, mapped, count;
    }

    /** The whole pass over the configuration; an exception leaves it half done. */
    method Convert(x: Conversion) returns (ok: bool, count: nat)
      modifies this
      ensures ok ==> root == Mapped(old(root), Total(x)) && count == Count(old(root), x)
      ensures ok <==> forall site :: !Raises(old(root), x, site)
    {
      ghost var cfg := root;
      ok, count := TuyaFields(x);
      RaisesWhere(cfg, x);
      if !ok {
        return;
      }
      SameChannels(cfg, TUYA_KEYS, Total(x));
      NoChannels(root, Total(x));
      var channels := SafeGet(root, ["notifications", "channels"]);
      ChannelsGot(root);
      if channels.Some? && channels.value.List? {
        var done, mapped, n := ChannelItems(channels.value.items, x, cfg);
        if !done {
          return false, count;
        }
        ok, count := true, count + n;
        var notifications := root.entries["notifications"];
        root := Dict(root.entries["notifications" := Dict(notifications.entries["channels" := List(mapped)])]);
      }
    }

    static method PlaintextIn(entries: map<string, Value>, i: nat, ghost cfg: Value) returns (found: bool)
      requires Holder(cfg, Channel(i)) == Some(Dict(entries))
      ensures found <==> exists k :: k in CHANNEL_KEYS && Plain(cfg, Site(Channel(i), k))
    {
      for j := 0 to |CHANNEL_KEYS|
        invariant forall k :: 0 <= k < j ==> !Plain(cfg, Site(Channel(i), CHANNEL_KEYS[k]))
      {
        var key := CHANNEL_KEYS[j];
        if key in entries && entries[key].Str? && entries[key].text != "" && !IsEncrypted(entries[key].text) {
          assert Plain(cfg, Site(Channel(i), key));
          return true;
        }
      }
      return false;
    }

    method HasPlaintextSecrets() returns (found: bool)
      ensures found <==> HasPlaintext(root)
    {
      PlaintextWhere(root);
      for i := 0 to |TUYA_KEYS|
        invariant forall k :: 0 <= k < i ==> !Plain(root, Site(Tuya, TUYA_KEYS[k]))
      {
        var v := SafeGet(root, TuyaPath(TUYA_KEYS[i]));
        GetsSecret(root, TUYA_KEYS[i]);
        if v.Some? && v.value.Str? && v.value.text != "" && !IsEncrypted(v.value.text) {
          assert Plain(root, Site(Tuya, TUYA_KEYS[i]));
          return true;
        }
      }
      var channels := SafeGet(root, ["notifications", "channels"]);
      ChannelsGot(root);
      if channels.Some? && channels.value.List? {
        var items := channels.value.items;
        for i := 0 to |items|
          invariant forall n: nat, k :: n < i && k in CHANNEL_KEYS ==> !Plain(root, Site(Channel(n), k))
        {
          if items[i].Dict? {
            assert Holder(root, Channel(i)) == Some(items[i]);
            found := PlaintextIn(items[i].entries, i, root);
            if found { return true; }
          }
        }
      }
      return false;
    }

    /** Returns how many fields it encrypted; none exactly if there was no plaintext. */
    method EncryptInPlace(c: Cipher) returns (count: nat)
      modifies this
      ensures root == Mapped(old(root), Encrypting(c))
      ensures count == Count(old(root), Encryption(c)) && (count > 0 <==> HasPlaintext(old(root)))
    {
      ghost var cfg := root;
      var ok;
      ok, count := Convert(Encryption(c));
      MappedAgrees(cfg, Total(Encryption(c)), Encrypting(c));
      CountZeroIff(cfg, Encryption(c));
      PlaintextIsWanted(cfg, Encryption(c));
    }

    /** Raises an exception if some encrypted field cannot be decrypted. */
    method DecryptInPlace(c: Cipher) returns (ok: bool, count: nat)
      modifies this
      ensures ok <==> Decryptable(old(root), c)
      ensures ok ==> root == Mapped(old(root), Decrypting(c)) && count == Count(old(root), Decryption(c))
    {
      ghost var cfg := root;
      ok, count := Convert(Decryption(c));
      MappedAgrees(cfg, Total(Decryption(c)), Decrypting(c));
      assert forall site :: Raises(cfg, Decryption(c), site) <==>
        Secret(cfg, site).Some? && Decrypt(c, Secret(cfg, site).value).None?;
    }
  }

  predicate Plain(cfg: Value, site: Site) {
    Secret(cfg, site).Some? && !IsEncrypted(Secret(cfg, site).value)
  }

  lemma PlaintextWhere(cfg: Value)
    ensures !HasPlaintext(cfg) <==>
            && (forall k :: k in TUYA_KEYS ==> !Plain(cfg, Site(Tuya, k)))
            && (forall i: nat, k :: i < |Channels(cfg)| && k in CHANNEL_KEYS ==> !Plain(cfg, Site(Channel(i), k)))
  {
  }

  lemma PlaintextIsWanted(cfg: Value, x: Conversion)
    requires forall v :: x.wanted(v) <==> !IsEncrypted(v)
    ensures HasPlaintext(cfg) <==> exists site :: Wanted(cfg, x, site)
  {
    if HasPlaintext(cfg) {
      var site :| Secret(cfg, site).Some? && !IsEncrypted(Secret(cfg, site).value);
      assert Wanted(cfg, x, site);
    }
  }

  /** Only the two tuya keys and the keys of the listed channels can make a conversion raise. */
  lemma RaisesWhere(cfg: Value, x: Conversion)
    ensures (forall site :: !Raises(cfg, x, site)) <==>
            && (forall k :: k in TUYA_KEYS ==> !Raises(cfg, x, Site(Tuya, k)))
            && (forall i: nat, k :: i < |Channels(cfg)| && k in CHANNEL_KEYS ==> !Raises(cfg, x, Site(Channel(i), k)))
  {
  }

  lemma {:induction false} NoKeysUpTo(cfg: Value, x: Conversion, owner: Owner, keys: seq<string>)
    requires Holder(cfg, owner).Some? && !Holder(cfg, owner).value.Dict?
    ensures CountKeys(cfg, x, owner, keys) == 0 && forall k :: !Raises(cfg, x, Site(owner, k))
  {
    if keys == [] {
    } else {
      NoKeysUpTo(cfg, x, owner, keys[..|keys| - 1]);
    }
  }

  lemma NoKeys(cfg: Value, x: Conversion, i: nat, v: Value)
    requires Holder(cfg, Channel(i)) == Some(v) && !v.Dict?
    ensures CountKeys(cfg, x, Channel(i), CHANNEL_KEYS) == 0
    ensures forall k :: !Raises(cfg, x, Site(Channel(i), k))
  {
    NoKeysUpTo(cfg, x, Channel(i), CHANNEL_KEYS);
  }

  lemma SameChannels(cfg: Value, keys: seq<string>, f: Change)
    ensures Get(Get(Some(MapTop(cfg, keys, f)), "notifications"), "channels")
         == Get(Get(Some(cfg), "notifications"), "channels")
  {
  }

  lemma ChannelsGot(cfg: Value)
    ensures SafeGet(cfg, ["notifications", "channels"]) == Get(Get(Some(cfg), "notifications"), "channels")
  {
  }

  /** Without a list of channels there is nothing to change in the second half. */
  lemma NoChannels(cfg: Value, f: Change)
    ensures var l := Get(Get(Some(cfg), "notifications"), "channels");
            (l.None? || !l.value.List?) ==> MapSecond(cfg, f) == cfg
  {
    if cfg.Dict? && "notifications" in cfg.entries {
      var n := cfg.entries["notifications"];
      assert cfg.entries["notifications" := n] == cfg.entries;
      if n.Dict? && "channels" in n.entries {
        assert n.entries["channels" := n.entries["channels"]] == n.entries;
      }
    }
  }
}
