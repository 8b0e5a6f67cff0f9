/** The two strings that name a resource: the cache identity and the node serve URL. */
module Identity {
  import opened Wrappers
  import opened Text
  import opened Types

  function SaltText(salt: Option<string>): string {
    match salt case None => "" case Some(s) => s
  }

  /** `storeId:root:resourceKey:salt`. The chain label is not part of it. */
  function ContentId(store: string, root: string, key: string, salt: Option<string>): string {
    store + [':'] + (root + [':'] + (key + [':'] + SaltText(salt)))
  }

  function CacheId(u: Urn, root: string): string {
    ContentId(u.store, root, u.key, u.salt)
  }

  function ServeUrl(base: string, u: Urn): string {
    var store := match u.root case Some(root) => u.store + [':'] + root case None => u.store;
    (base + "/s/") + (store + ['/'] + u.key)
  }

  /** Same store, resource key and salt: all that the decryption key depends on besides the chain. */
  predicate SameResource(u: Urn, v: Urn) {
    u.store == v.store && u.key == v.key && u.salt == v.salt
  }

  lemma HexColonFree(s: string)
    requires IsHex(s)
    ensures ':' !in s && '/' !in s
  {}

  lemma SaltTextInjective(a: Option<string>, b: Option<string>)
    requires a.Some? ==> a.value != []
    requires b.Some? ==> b.value != []
    requires SaltText(a) == SaltText(b)
    ensures a == b
  {}

  /** Equal identities agree on the store and on all that follows it. */
  lemma RestAfterStore(u: Urn, root: string, v: Urn, root': string)
    requires CacheId(u, root) == CacheId(v, root')
    ensures u.store == v.store
    ensures root + [':'] + (u.key + [':'] + SaltText(u.salt)) == root' + [':'] + (v.key + [':'] + SaltText(v.salt))
  {
    HexColonFree(u.store);
    HexColonFree(v.store);
    FirstCut(u.store, root + [':'] + (u.key + [':'] + SaltText(u.salt)),
             v.store, root' + [':'] + (v.key + [':'] + SaltText(v.salt)), ':');
  }

  /** Equal identities mean equal lookups, for any resource key, colons included. */
  lemma CacheIdInjective(u: Urn, root: string, v: Urn, root': string)
    requires ':' !in root && ':' !in root'
    requires CacheId(u, root) == CacheId(v, root')
    ensures SameResource(u, v) && root == root'
  {
    RestAfterStore(u, root, v, root');
    FirstCut(root, u.key + [':'] + SaltText(u.salt), root', v.key + [':'] + SaltText(v.salt), ':');
    SaltColonFree(u);
    SaltColonFree(v);
    LastCut(u.key, SaltText(u.salt), v.key, SaltText(v.salt), ':');
    SaltTextInjective(u.salt, v.salt);
  }

  lemma SaltColonFree(u: Urn)
    ensures ':' !in SaltText(u.salt)
  {}

  /** Pinned URNs of one chain label have distinct identities. */
  lemma PinnedIdInjective(u: Urn, v: Urn)
    requires u.root.Some? && v.root.Some? && u.chain == v.chain
    requires CacheId(u, u.root.value) == CacheId(v, v.root.value)
    ensures u == v
  {
    HexColonFree(u.root.value);
    HexColonFree(v.root.value);
    CacheIdInjective(u, u.root.value, v, v.root.value);
  }

  // ------------------------------------------------------------------ shared identities

  /** One identity, two different lookups. */
  predicate Collides(u: Urn, root: string, v: Urn, root': string) {
    CacheId(u, root) == CacheId(v, root') && !(SameResource(u, v) && root == root')
  }

  /** `root` is `pin`, a colon, and a stretch of `key` that ends just before a colon of `key`,
      with some key left over. */
  predicate Straddles(root: string, pin: string, key: string) {
    exists i :: 0 <= i < |key| - 1 && key[i] == ':' && root == pin + [':'] + key[..i]
  }

  /** What the code looks up is a URN under its own pinned root. What it keeps may be under a root
      that a node named. This is exactly when a kept identity is that of another lookup. */
  lemma CollidesExactly(v: Urn, root: string)
    requires v.root.Some?
    ensures (exists u: Urn :: Collides(u, root, v, v.root.value)) <==> Straddles(root, v.root.value, v.key)
  {
    forall u: Urn | Collides(u, root, v, v.root.value)
      ensures Straddles(root, v.root.value, v.key)
    {
      CollisionStraddles(u, root, v);
    }
    if Straddles(root, v.root.value, v.key) {
      var u := StraddleCollides(root, v);
      assert Collides(u, root, v, v.root.value);
    }
  }

  lemma CollisionStraddles(u: Urn, root: string, v: Urn)
    requires v.root.Some? && Collides(u, root, v, v.root.value)
    ensures Straddles(root, v.root.value, v.key)
  {
    var x := CollisionShape(u, root, v);
    assert v.key[|x|] == ':' && v.key[..|x|] == x;
  }

  /** Two lookups of one identity: a part `x` sits at the end of one root and at the start of the
      other key. */
  lemma CollisionShape(u: Urn, root: string, v: Urn) returns (x: string)
    requires v.root.Some? && Collides(u, root, v, v.root.value)
    ensures root == v.root.value + [':'] + x && v.key == x + [':'] + u.key
    ensures u.store == v.store && u.salt == v.salt
  {
    var pin := v.root.value;
    x := [];
    HexColonFree(pin);
    if ':' !in root {
      CacheIdInjective(u, root, v, pin);
    } else {
      var i := FirstColon(root);
      x := root[i + 1..];
      assert root == root[..i] + [':'] + x;
      RestAfterStore(u, root, v, pin);
      CutRoot(root[..i], x, u, pin, v);
    }
  }

  /** What follows equal stores, when one root has a part beyond its first colon: the part has moved
      to the front of the other key. */
  lemma CutRoot(front: string, x: string, u: Urn, pin: string, v: Urn)
    requires ':' !in front && ':' !in pin
    requires front + [':'] + x + [':'] + (u.key + [':'] + SaltText(u.salt))
          == pin + [':'] + (v.key + [':'] + SaltText(v.salt))
    ensures front == pin && v.key == x + [':'] + u.key && u.salt == v.salt
  {
    Regroup(front, x, u.key, SaltText(u.salt));
    FirstCut(front, x + [':'] + u.key + [':'] + SaltText(u.salt), pin, v.key + [':'] + SaltText(v.salt), ':');
    SaltColonFree(u);
    SaltColonFree(v);
    LastCut(x + [':'] + u.key, SaltText(u.salt), v.key, SaltText(v.salt), ':');
    SaltTextInjective(u.salt, v.salt);
  }

  lemma Regroup(front: string, x: string, key: string, salt: string)
    ensures front + [':'] + x + [':'] + (key + [':'] + salt) == front + [':'] + (x + [':'] + key + [':'] + salt)
  {}

  /** The rootless URN whose key is what the straddling root leaves over. */
  lemma StraddleCollides(root: string, v: Urn) returns (u: Urn)
    requires v.root.Some? && Straddles(root, v.root.value, v.key)
    ensures u == v.(root := None, key := u.key) && |u.key| < |v.key| && Collides(u, root, v, v.root.value)
  {
    var pin := v.root.value;
    var i :| 0 <= i < |v.key| - 1 && v.key[i] == ':' && root == pin + [':'] + v.key[..i];
    u := v.(root := None, key := v.key[i + 1..]);
    assert v.key == v.key[..i] + [':'] + u.key;
    SplicedId(v.store, pin, v.key[..i], u.key, v.salt);
  }

  /** `root` reads as 64 hexadecimal digits, a colon and anything at all. */
  predicate HexThenColon(root: string) {
    ':' in root && IsHex64(root[..FirstColon(root)])
  }

  /** The same seen from the kept entry: some pinned lookup collides with it exactly when its root
      has that shape. */
  lemma SharedWithPinnedExactly(u: Urn, root: string)
    ensures (exists v: Urn :: v.root.Some? && Collides(u, root, v, v.root.value)) <==> HexThenColon(root)
  {
    hide CacheId, HexThenColon, Straddles;
    forall v: Urn | v.root.Some? && Collides(u, root, v, v.root.value)
      ensures HexThenColon(root)
    {
      CollisionStraddles(u, root, v);
      StraddlerShape(root, v);
    }
    if HexThenColon(root) {
      var v := CollidingPin(u, root);
    }
  }

  lemma StraddlerShape(root: string, v: Urn)
    requires v.root.Some? && Straddles(root, v.root.value, v.key)
    ensures HexThenColon(root)
  {
    HexColonFree(v.root.value);
    var n := |v.root.value|;
    assert root[n] == ':' && root[..n] == v.root.value;
    FirstColonAt(root, n);
  }

  lemma CollidingPin(u: Urn, root: string) returns (v: Urn)
    requires HexThenColon(root)
    ensures v.root.Some? && Collides(u, root, v, v.root.value)
  {
    var i := FirstColon(root);
    var x := root[i + 1..];
    v := u.(root := Some(root[..i]), key := x + [':'] + u.key);
    assert root == root[..i] + [':'] + x;
    SplicedId(u.store, root[..i], x, u.key, u.salt);
  }

  /** The identity does not show where the root ends and the key begins. */
  lemma SplicedId(store: string, front: string, x: string, key: string, salt: Option<string>)
    ensures ContentId(store, front + [':'] + x, key, salt) == ContentId(store, front, x + [':'] + key, salt)
  {
    var tail := [':'] + SaltText(salt);
    assert (front + [':'] + x) + [':'] + (key + tail) == front + [':'] + ((x + [':'] + key) + tail);
  }

  /** The same seen from the lookup: some root that a node may name (text with white space trimmed
      off) leads to a collision exactly when the key holds a colon with text after it and no white
      space right before it. */
  lemma LookupSharedExactly(v: Urn)
    requires v.root.Some?
    ensures (exists root: string :: Trimmed(root) && Straddles(root, v.root.value, v.key)) <==> ColonInside(v.key)
  {
    var pin := v.root.value;
    forall root: string | Trimmed(root) && Straddles(root, pin, v.key)
      ensures ColonInside(v.key)
    {
      var i :| 0 <= i < |v.key| - 1 && v.key[i] == ':' && root == pin + [':'] + v.key[..i];
      assert i > 0 ==> root[|root| - 1] == v.key[i - 1];
    }
    if ColonInside(v.key) {
      var i :| 0 <= i < |v.key| - 1 && v.key[i] == ':' && (i == 0 || !IsSpace(v.key[i - 1]));
      var root := pin + [':'] + v.key[..i];
      assert root[0] == pin[0] && root[|root| - 1] == if i == 0 then ':' else v.key[i - 1];
      assert Straddles(root, pin, v.key);
    }
  }

  predicate ColonInside(key: string) {
    exists i :: 0 <= i < |key| - 1 && key[i] == ':' && (i == 0 || !IsSpace(key[i - 1]))
  }

  function FirstColon(s: string): (i: nat)
    requires ':' in s
    ensures i < |s| && s[i] == ':' && ':' !in s[..i]
  {
    if s[0] == ':' then 0
    else
      var i := FirstColon(s[1..]);
      assert s[..i + 1] == [s[0]] + s[1..][..i];
      i + 1
  }

  lemma FirstColonAt(s: string, n: nat)
    requires n < |s| && s[n] == ':' && ':' !in s[..n]
    ensures FirstColon(s) == n
  {
    var i := FirstColon(s);
    assert forall k :: 0 <= k < n ==> s[k] in s[..n];
    assert forall k :: 0 <= k < i ==> s[k] in s[..i];
  }

  /** The chain label is not part of the identity: two labels always share one. */
  lemma ChainsShareId(u: Urn, chain: string, root: string)
    requires chain != []
    ensures CacheId(u, root) == CacheId(u.(chain := chain), root)
  {}

  /** For a fixed base, the request names the store, the optional root and the key exactly; in
      particular a rootless and a pinned request never coincide. */
  lemma ServeUrlInjective(base: string, u: Urn, v: Urn)
    requires ServeUrl(base, u) == ServeUrl(base, v)
    ensures u.store == v.store && u.root == v.root && u.key == v.key
  {
    var front := base + "/s/";
    var a := match u.root case Some(root) => u.store + [':'] + root case None => u.store;
    var b := match v.root case Some(root) => v.store + [':'] + root case None => v.store;
    assert (front + (a + ['/'] + u.key))[|front|..] == a + ['/'] + u.key;
    assert (front + (b + ['/'] + v.key))[|front|..] == b + ['/'] + v.key;
    HexColonFree(u.store);
    HexColonFree(v.store);
    if u.root.Some? { HexColonFree(u.root.value); }
    if v.root.Some? { HexColonFree(v.root.value); }
    FirstCut(a, u.key, b, v.key, '/');
    assert u.root.Some? ==> a[64] == ':';
    assert v.root.Some? ==> b[64] == ':';
    if u.root.Some? && v.root.Some? {
      FirstCut(u.store, u.root.value, v.store, v.root.value, ':');
    }
  }
}
