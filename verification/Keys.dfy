/**
  Instance-scoped keys (internal/instance/keys.go): components joined by colons under the
  prefix "instance:{id}", or without a prefix for the empty instance ID.
 */
module Keys {

  // ----- colon-separated text -----

  predicate ColonFree(s: string) {
    ':' !in s
  }

  predicate AllColonFree(parts: seq<string>) {
    forall p :: p in parts ==> ColonFree(p)
  }

  /** strings.Join(parts, ":"). */
  function Join(parts: seq<string>): string {
    if parts == [] then "" else if |parts| == 1 then parts[0] else parts[0] + ":" + Join(parts[1..])
  }

  /** strings.Split(s, ":"). */
  function Split(s: string): (parts: seq<string>)
    ensures parts != []
  {
    if s == "" then [""]
    else
      var rest := Split(s[1..]);
      if s[0] == ':' then [""] + rest else [[s[0]] + rest[0]] + rest[1..]
  }

  lemma {:induction false} SplitHead(p: string, t: string)
    requires ColonFree(p)
    ensures Split(p + ":" + t) == [p] + Split(t)
  {
    var s := p + ":" + t;
    if p == "" {
      assert s[0] == ':' && s[1..] == t;
    } else {
      SplitHead(p[1..], t);
      assert s[0] == p[0] && s[1..] == p[1..] + ":" + t;
      assert [p[0]] + p[1..] == p;
    }
  }

  lemma {:induction false} SplitWhole(p: string)
    requires ColonFree(p)
    ensures Split(p) == [p]
  {
    if p != "" {
      SplitWhole(p[1..]);
      assert [p[0]] + p[1..] == p;
    }
  }

  lemma {:induction false} SplitIsColonFree(s: string)
    ensures AllColonFree(Split(s))
  {
    if s != "" {
      SplitIsColonFree(s[1..]);
      var rest := Split(s[1..]);
      forall p | p in Split(s) ensures ColonFree(p) {
        if p !in rest[1..] && s[0] != ':' {
          assert p == [s[0]] + rest[0] && ColonFree(rest[0]);
        }
      }
    }
  }

  /** Splitting undoes joining exactly for a non-empty list of colon-free parts. */
  lemma {:induction false} SplitJoin(parts: seq<string>)
    ensures Split(Join(parts)) == parts <==> parts != [] && AllColonFree(parts)
  {
    SplitIsColonFree(Join(parts));
    if parts != [] && AllColonFree(parts) {
      if |parts| == 1 {
        SplitWhole(parts[0]);
      } else {
        SplitJoin(parts[1..]);
        SplitHead(parts[0], Join(parts[1..]));
      }
    }
  }

  // ----- the key builder -----

  const PREFIX := "instance"

  /** unicode.IsSpace. */
  predicate IsSpace(c: char) {
    || c in "\t\n\r \U{0B}\U{0C}\U{85}\U{A0}\U{1680}\U{2028}\U{2029}\U{202F}\U{205F}\U{3000}"
    || '\U{2000}' <= c <= '\U{200A}'
  }

  function TrimLeft(s: string): string {
    if s != "" && IsSpace(s[0]) then TrimLeft(s[1..]) else s
  }

  function TrimRight(s: string): string {
    if s != "" && IsSpace(s[|s| - 1]) then TrimRight(s[..|s| - 1]) else s
  }

  /** strings.TrimSpace. */
  function TrimSpace(s: string): string {
    TrimRight(TrimLeft(s))
  }

  /** A key builder holds a trimmed instance ID and nothing else. */
  datatype KeyBuilder = KeyBuilder(instanceID: string) {

    function BuildKey(components: seq<string>): string {
      if instanceID == "" then Join(components) else Join([PREFIX, instanceID] + components)
    }

    /** The instance ID, empty for a key without the prefix, and the remaining components. */
    function ParseKey(key: string): (string, seq<string>) {
      var parts := Split(key);
      if |parts| >= 2 && parts[0] == PREFIX then (parts[1], parts[2..]) else ("", parts)
    }

    predicate IsInstanceKey(key: string) {
      if instanceID == "" then !((PREFIX + ":") <= key) else PREFIX + ":" + instanceID + ":" <= key
    }

    function StripInstance(key: string): string {
      if instanceID == "" || !IsInstanceKey(key) then key
      else key[|PREFIX + ":" + instanceID + ":"|..]
    }

    function CacheKey(key: string): string {
      BuildKey(["cache", key])
    }
  }

  function NewKeyBuilder(id: string): KeyBuilder {
    KeyBuilder(TrimSpace(id))
  }

  /** Trimming removes exactly the surrounding white space, so it introduces no colon. */
  lemma {:induction false} TrimLeftIsSuffix(s: string)
    ensures exists i: nat :: i <= |s| && TrimLeft(s) == s[i..] && (forall k :: 0 <= k < i ==> IsSpace(s[k]))
    ensures TrimLeft(s) != "" ==> !IsSpace(TrimLeft(s)[0])
  {
    if s != "" && IsSpace(s[0]) {
      TrimLeftIsSuffix(s[1..]);
      var i: nat :| i <= |s[1..]| && TrimLeft(s[1..]) == s[1..][i..] && (forall k :: 0 <= k < i ==> IsSpace(s[1..][k]));
      assert TrimLeft(s) == s[i + 1..];
      assert forall k :: 0 < k < i + 1 ==> s[k] == s[1..][k - 1];
    } else {
      assert s == s[0..];
    }
  }

  lemma {:induction false} TrimRightIsPrefix(s: string)
    ensures TrimRight(s) <= s && (forall k :: |TrimRight(s)| <= k < |s| ==> IsSpace(s[k]))
    ensures TrimRight(s) != "" ==> !IsSpace(TrimRight(s)[|TrimRight(s)| - 1])
  {
    if s != "" && IsSpace(s[|s| - 1]) {
      TrimRightIsPrefix(s[..|s| - 1]);
    }
  }

  lemma TrimKeepsColonFree(id: string)
    requires ColonFree(id)
    ensures ColonFree(NewKeyBuilder(id).instanceID)
  {
    TrimLeftIsSuffix(id);
    TrimRightIsPrefix(TrimLeft(id));
  }

  /** White space by code point: nine to thirteen, the space, and the other Unicode spaces. */
  lemma SpacesAre(c: char)
    ensures IsSpace(c) <==>
              || 9 <= c as int <= 13
              || c as int in {0x20, 0x85, 0xA0, 0x1680, 0x2028, 0x2029, 0x202F, 0x205F, 0x3000}
              || 0x2000 <= c as int <= 0x200A
  {
  }

  predicate AllSpace(s: string) {
    forall c :: c in s ==> IsSpace(c)
  }

  /** Neither begins nor ends with white space. */
  predicate Bare(s: string) {
    s == "" || (!IsSpace(s[0]) && !IsSpace(s[|s| - 1]))
  }

  lemma {:induction false} TrimLeftDrops(pre: string, s: string)
    requires AllSpace(pre)
    ensures TrimLeft(pre + s) == TrimLeft(s)
  {
    if pre == "" {
      assert pre + s == s;
    } else {
      assert (pre + s)[1..] == pre[1..] + s;
      TrimLeftDrops(pre[1..], s);
    }
  }

  lemma {:induction false} TrimRightDrops(s: string, post: string)
    requires AllSpace(post)
    ensures TrimRight(s + post) == TrimRight(s)
  {
    if post == "" {
      assert s + post == s;
    } else {
      assert (s + post)[..|s + post| - 1] == s + post[..|post| - 1];
      TrimRightDrops(s, post[..|post| - 1]);
    }
  }

  /** A bare ID is kept as it is, and white space around it changes nothing. */
  lemma NewKeepsId(pre: string, id: string, post: string)
    requires AllSpace(pre) && Bare(id) && AllSpace(post)
    ensures NewKeyBuilder(pre + id + post).instanceID == id
  {
    assert pre + id + post == pre + (id + post);
    TrimLeftDrops(pre, id + post);
    if id == "" {
      assert id + post == post + "";
      TrimLeftDrops(post, "");
    } else {
      TrimRightDrops(id, post);
    }
  }

  /** Every ID is a bare one with white space around it. */
  lemma {:induction false} BareWithin(s: string) returns (pre: string, id: string, post: string)
    ensures s == pre + id + post && AllSpace(pre) && Bare(id) && AllSpace(post)
  {
    if Bare(s) {
      pre, id, post := "", s, "";
    } else if IsSpace(s[0]) {
      pre, id, post := BareWithin(s[1..]);
      pre := [s[0]] + pre;
      assert s == [s[0]] + s[1..];
    } else {
      pre, id, post := BareWithin(s[..|s| - 1]);
      post := post + [s[|s| - 1]];
      assert s == s[..|s| - 1] + [s[|s| - 1]];
    }
  }

  // ----- round trips -----

  lemma JoinHead(p: string, parts: seq<string>)
    ensures Join([p] + parts) == if parts == [] then p else p + ":" + Join(parts)
  {
    assert ([p] + parts)[1..] == parts;
  }

  lemma BuiltKey(kb: KeyBuilder, cs: seq<string>)
    requires kb.instanceID != ""
    ensures kb.BuildKey(cs) == PREFIX + ":" + kb.instanceID + if cs == [] then "" else ":" + Join(cs)
  {
    assert [PREFIX, kb.instanceID] + cs == [PREFIX] + ([kb.instanceID] + cs);
    JoinHead(PREFIX, [kb.instanceID] + cs);
    JoinHead(kb.instanceID, cs);
  }

  lemma BuiltText(kb: KeyBuilder, cs: seq<string>)
    requires kb.instanceID != ""
    ensures kb.BuildKey(cs) == "instance:" + kb.instanceID + if cs == [] then "" else ":" + Join(cs)
  {
    BuiltKey(kb, cs);
    assert PREFIX + ":" == "instance:";
  }

  /** A built key parses back to its ID and components exactly when neither contains a colon. */
  lemma ParseBuild(kb: KeyBuilder, cs: seq<string>)
    requires kb.instanceID != ""
    ensures kb.ParseKey(kb.BuildKey(cs)) == (kb.instanceID, cs) <==> ColonFree(kb.instanceID) && AllColonFree(cs)
  {
    var all := [PREFIX, kb.instanceID] + cs;
    SplitJoin(all);
    JoinHead(PREFIX, all[1..]);
    assert all == [PREFIX] + all[1..];
    SplitHead(PREFIX, Join(all[1..]));
    var parts := Split(Join(all));
    assert parts[0] == PREFIX && |parts| >= 2;
    assert parts == [parts[0], parts[1]] + parts[2..];
    assert AllColonFree(all) <==> ColonFree(kb.instanceID) && AllColonFree(cs);
  }

  /** Without an instance ID the round trip also needs a component, and no components that look like a prefix. */
  lemma ParseBuildLegacy(cs: seq<string>)
    ensures var kb := KeyBuilder("");
            kb.ParseKey(kb.BuildKey(cs)) == ("", cs)
            <==> cs != [] && AllColonFree(cs) && !(|cs| >= 2 && cs[0] == PREFIX)
  {
    SplitJoin(cs);
    SplitIsColonFree(Join(cs));
  }

  lemma {:induction false} JoinSplit(s: string)
    ensures Join(Split(s)) == s
  {
    if s != "" {
      JoinSplit(s[1..]);
      var rest := Split(s[1..]);
      if s[0] == ':' {
        JoinHead("", rest);
      } else {
        assert rest == [rest[0]] + rest[1..];
        JoinHead(rest[0], rest[1..]);
        JoinHead([s[0]] + rest[0], rest[1..]);
      }
      assert s == [s[0]] + s[1..];
    }
  }

  /**
    Building from what a key parses to gives the key back, for any key at all, exactly when
    it does not carry the prefix with an empty instance ID.
   */
  lemma RebuildParsed(kb: KeyBuilder, key: string)
    ensures var parts := Split(key); var (id, cs) := kb.ParseKey(key);
            KeyBuilder(id).BuildKey(cs) == key <==> !(|parts| >= 2 && parts[0] == PREFIX && parts[1] == "")
  {
    var parts := Split(key);
    JoinSplit(key);
    if |parts| >= 2 && parts[0] == PREFIX {
      var id, cs := parts[1], parts[2..];
      assert parts == [PREFIX] + ([id] + cs) == [PREFIX, id] + cs;
      JoinHead(PREFIX, [id] + cs);
      JoinHead(id, cs);
      assert |Join(cs)| < |key|;
    }
  }

  /** Stripping a built key leaves the joined components, for any ID, exactly when there are components. */
  lemma StripBuild(kb: KeyBuilder, cs: seq<string>)
    requires kb.instanceID != ""
    ensures kb.StripInstance(kb.BuildKey(cs)) == Join(cs) <==> cs != []
  {
    BuiltKey(kb, cs);
    var head := PREFIX + ":" + kb.instanceID + ":";
    if cs != [] {
      assert kb.BuildKey(cs) == head + Join(cs);
    } else {
      assert |kb.BuildKey(cs)| < |head|;
    }
  }

  /** An instance recognises exactly the keys it builds, and strips exactly those. */
  lemma RecognisesExactly(kb: KeyBuilder, key: string)
    ensures kb.instanceID != "" ==> (kb.IsInstanceKey(key) <==> exists rest :: key == kb.BuildKey([rest]))
    ensures kb.instanceID == "" ==> (kb.IsInstanceKey(key) <==> !("instance:" <= key))
    ensures forall rest :: kb.instanceID != "" && key == kb.BuildKey([rest]) ==> kb.StripInstance(key) == rest
    ensures kb.instanceID == "" || !kb.IsInstanceKey(key) ==> kb.StripInstance(key) == key
  {
    assert PREFIX + ":" == "instance:";
    if kb.instanceID != "" {
      var head := PREFIX + ":" + kb.instanceID + ":";
      forall rest ensures kb.BuildKey([rest]) == head + rest {
        BuiltKey(kb, [rest]);
        assert Join([rest]) == rest;
      }
      if kb.IsInstanceKey(key) {
        assert key == head + key[|head|..] == kb.BuildKey([key[|head|..]]);
      }
    }
  }

  // ----- namespaces -----

  /** Everything an instance stores in the cache starts with this text. */
  function Namespace(kb: KeyBuilder): string {
    if kb.instanceID == "" then "cache:" else PREFIX + ":" + kb.instanceID + ":cache:"
  }

  lemma CacheKeyText(kb: KeyBuilder, key: string)
    ensures kb.CacheKey(key) == Namespace(kb) + key
    ensures kb.CacheKey(key)
            == (if kb.instanceID == "" then "cache:" else "instance:" + kb.instanceID + ":cache:") + key
  {
    JoinHead("cache", [key]);
    assert ["cache"] + [key] == ["cache", key];
    if kb.instanceID != "" {
      BuiltKey(kb, ["cache", key]);
    }
  }

  /** Two instances can produce the same cache key exactly when one namespace begins with the other. */
  lemma CollideExactly(a: KeyBuilder, b: KeyBuilder)
    ensures (exists k, l :: a.CacheKey(k) == b.CacheKey(l))
            <==> Namespace(a) <= Namespace(b) || Namespace(b) <= Namespace(a)
  {
    forall k, l | a.CacheKey(k) == b.CacheKey(l)
      ensures Namespace(a) <= Namespace(b) || Namespace(b) <= Namespace(a)
    {
      CacheKeyText(a, k);
      CacheKeyText(b, l);
      CommonExtension(Namespace(a), Namespace(b), Namespace(a) + k);
    }
    if Namespace(a) <= Namespace(b) {
      Extend(a, b);
    } else if Namespace(b) <= Namespace(a) {
      Extend(b, a);
    }
  }

  lemma Extend(a: KeyBuilder, b: KeyBuilder)
    requires Namespace(a) <= Namespace(b)
    ensures exists k :: a.CacheKey(k) == b.CacheKey("")
  {
    var k := Namespace(b)[|Namespace(a)|..];
    CacheKeyText(a, k);
    CacheKeyText(b, "");
    assert Namespace(a) + k == Namespace(b) == Namespace(b) + "";
  }

  lemma CommonExtension(p: string, q: string, s: string)
    requires p <= s && q <= s
    ensures p <= q || q <= p
  {
    assert p == s[..|p|] && q == s[..|q|];
  }

  /** Texts that differ before the first colon are different. */
  lemma FirstField(p: string, q: string, s: string, t: string)
    requires ColonFree(p) && ColonFree(q) && p + ":" + s == q + ":" + t
    ensures p == q && s == t
  {
    SplitHead(p, s);
    SplitHead(q, t);
    assert p == Split(p + ":" + s)[0] == q;
    assert s == (p + ":" + s)[|p| + 1..] == t;
  }

  /** A namespace shows in its first letter whether there is an instance ID, and names it before the next colon. */
  lemma NamespaceText(kb: KeyBuilder, k: string)
    ensures (Namespace(kb) + k)[0] == if kb.instanceID == "" then 'c' else 'i'
    ensures kb.instanceID != "" ==> (Namespace(kb) + k)[9..] == kb.instanceID + ":" + ("cache:" + k)
  {
    if kb.instanceID != "" {
      assert Namespace(kb) + k == (PREFIX + ":") + (kb.instanceID + ":" + ("cache:" + k));
    }
  }

  lemma NamespaceInjective(a: KeyBuilder, b: KeyBuilder, k: string, l: string)
    requires ColonFree(a.instanceID) && ColonFree(b.instanceID) && Namespace(a) + k == Namespace(b) + l
    ensures a == b
  {
    NamespaceText(a, k);
    NamespaceText(b, l);
    if a.instanceID != "" {
      FirstField(a.instanceID, b.instanceID, "cache:" + k, "cache:" + l);
    }
  }

  /**
    For colon-free IDs, the empty one included, the pair of ID and key is recovered from the
    cache key, colons in the key or not.
   */
  lemma CacheKeyInjective(a: KeyBuilder, b: KeyBuilder, k: string, l: string)
    requires ColonFree(a.instanceID) && ColonFree(b.instanceID) && a.CacheKey(k) == b.CacheKey(l)
    ensures a == b && k == l
  {
    CacheKeyText(a, k);
    CacheKeyText(b, l);
    NamespaceInjective(a, b, k, l);
    assert k == a.CacheKey(k)[|Namespace(a)|..] && l == b.CacheKey(l)[|Namespace(a)|..];
  }

  lemma SamePrefix(p: string, q: string, key: string, s: string, t: string)
    requires ColonFree(p) && ColonFree(q)
    requires key == PREFIX + ":" + p + ":" + s == PREFIX + ":" + q + ":" + t
    ensures p == q
  {
    assert key[9..] == p + ":" + s == q + ":" + t;
    FirstField(p, q, s, t);
  }

  /** An instance recognises a key built by another colon-free instance exactly when they are the same. */
  lemma OwnsOnlyItsKeys(a: KeyBuilder, b: KeyBuilder, cs: seq<string>)
    requires ColonFree(a.instanceID) && ColonFree(b.instanceID) && b.instanceID != "" && cs != []
    ensures a.IsInstanceKey(b.BuildKey(cs)) <==> a == b
  {
    BuiltKey(b, cs);
    var key := b.BuildKey(cs);
    assert key == PREFIX + ":" + b.instanceID + ":" + Join(cs);
    if a.instanceID == "" {
      assert PREFIX + ":" <= key;
    } else if a.IsInstanceKey(key) {
      var head := PREFIX + ":" + a.instanceID + ":";
      SamePrefix(a.instanceID, b.instanceID, key, key[|head|..], Join(cs));
    }
  }

  /** Without the colon-free condition two instances can share a cache key. */
  lemma ColonsCollide()
    ensures KeyBuilder("a").CacheKey("b:cache:k") == KeyBuilder("a:cache:b").CacheKey("k")
  {
    CacheKeyText(KeyBuilder("a"), "b:cache:k");
    CacheKeyText(KeyBuilder("a:cache:b"), "k");
  }
}
