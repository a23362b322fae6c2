// The key-value store of the Lightning node: namespaces and keys joined into one ordered table.
module KvStores {
  import opened Common

  type Value = seq<nat>

  // A primary namespace, a secondary one that may be empty, and a key.
  datatype Name = Name(primary: string, secondary: string, key: string)

  predicate SlashFree(s: string) {
    '/' !in s
  }

  predicate Plain(n: Name) {
    SlashFree(n.primary) && SlashFree(n.secondary) && SlashFree(n.key)
  }

  function MakeKey(n: Name): string {
    if n.secondary == "" then n.primary + "/" + n.key
    else n.primary + "/" + n.secondary + "/" + n.key
  }

  function MakePrefix(primary: string, secondary: string): string {
    if secondary == "" then primary + "/" else primary + "/" + secondary + "/"
  }

  // ---- Joining and splitting ----

  // The first slash splits a joined text in one way only.
  lemma {:induction false} JoinSplits(a: string, b: string, c: string, d: string)
    requires SlashFree(a) && SlashFree(c) && a + "/" + b == c + "/" + d
    ensures a == c && b == d
  {
    var x, y := a + "/" + b, c + "/" + d;
    assert y[0] == if c == [] then '/' else c[0];
    if a == [] {
      assert x[0] == '/';
      assert x[1..] == b && y[1..] == d;
    } else {
      assert x[0] == a[0];
      assert x[1..] == a[1..] + "/" + b && y[1..] == c[1..] + "/" + d;
      JoinSplits(a[1..], b, c[1..], d);
      assert a == [a[0]] + a[1..] && c == [c[0]] + c[1..];
    }
  }

  lemma NoSlashInside(a: string, b: string, c: string)
    requires SlashFree(c)
    ensures a + "/" + b != c
  {
    assert (a + "/" + b)[|a|] == '/';
  }

  // A key below its primary namespace.
  function Inner(secondary: string, key: string): string {
    if secondary == "" then key else secondary + "/" + key
  }

  lemma KeyIs(n: Name)
    ensures MakeKey(n) == n.primary + "/" + Inner(n.secondary, n.key)
  {
    if n.secondary != "" {
      assert n.primary + "/" + n.secondary + "/" + n.key == n.primary + "/" + (n.secondary + "/" + n.key);
    }
  }

  lemma PrefixIs(primary: string, secondary: string, k: string)
    ensures MakePrefix(primary, secondary) + k == primary + "/" + Inner(secondary, k)
  {
    if secondary != "" {
      assert primary + "/" + secondary + "/" + k == primary + "/" + (secondary + "/" + k);
    }
  }

  lemma InnerSplits(secondary: string, k: string, s: string, key: string)
    requires SlashFree(secondary) && SlashFree(s) && SlashFree(key)
    ensures Inner(s, key) == Inner(secondary, k) <==>
              if secondary == "" then k == Inner(s, key) else s == secondary && k == key
  {
    if secondary != "" && Inner(s, key) == Inner(secondary, k) {
      if s == "" {
        NoSlashInside(secondary, k, key);
      } else {
        JoinSplits(s, key, secondary, k);
      }
    }
  }

  // Listing a namespace answers `k` because of this name.
  predicate Answers(n: Name, primary: string, secondary: string, k: string) {
    n.primary == primary && if secondary == "" then k == Inner(n.secondary, n.key) else
      n.secondary == secondary && k == n.key
  }

  // A name of slash-free parts has the key that the prefix of a namespace and `k` make exactly when
  // listing that namespace answers `k` because of it.
  lemma KeyAnswers(n: Name, primary: string, secondary: string, k: string)
    requires SlashFree(primary) && SlashFree(secondary) && Plain(n)
    ensures MakeKey(n) == MakePrefix(primary, secondary) + k <==> Answers(n, primary, secondary, k)
  {
    hide MakeKey, MakePrefix, Inner, SlashFree;
    KeyIs(n);
    PrefixIs(primary, secondary, k);
    InnerSplits(secondary, k, n.secondary, n.key);
    if MakeKey(n) == MakePrefix(primary, secondary) + k {
      JoinSplits(n.primary, Inner(n.secondary, n.key), primary, Inner(secondary, k));
    }
  }

  // Names of slash-free parts get different keys.
  lemma KeysAreInjective(m: Name, n: Name)
    requires Plain(m) && Plain(n) && MakeKey(m) == MakeKey(n)
    ensures m == n
  {
    hide MakeKey, MakePrefix, SlashFree;
    KeyIs(n);
    PrefixIs(n.primary, n.secondary, n.key);
    KeyAnswers(m, n.primary, n.secondary, n.key);
    if n.secondary == "" { SecondaryOf(m, n); }
  }

  lemma SecondaryOf(m: Name, n: Name)
    requires Plain(n) && Inner(m.secondary, m.key) == n.key
    ensures m.secondary == "" && m.key == n.key
  {
    if m.secondary != "" { NoSlashInside(m.secondary, m.key, n.key); }
  }

  // A slash in a key makes it collide with one in a secondary namespace.
  lemma SlashCollides(primary: string, secondary: string, key: string)
    requires secondary != ""
    ensures MakeKey(Name(primary, "", secondary + "/" + key)) == MakeKey(Name(primary, secondary, key))
  {
    assert primary + "/" + (secondary + "/" + key) == primary + "/" + secondary + "/" + key;
  }

  // Among all names whatever their parts hold, a name shares its key with no other exactly when it has
  // no secondary namespace and no part of it holds a slash: the one slash of the key can then be
  // nothing but the separator.
  lemma KeyIsOwnExactlyWhen(n: Name)
    ensures (forall m :: MakeKey(m) == MakeKey(n) ==> m == n) <==> n.secondary == "" && Plain(n)
  {
    hide MakeKey, Inner;
    if n.secondary == "" && Plain(n) {
      forall m | MakeKey(m) == MakeKey(n) ensures m == n {
        OneSlash(m, n);
      }
    } else {
      var m := SharesKey(n);
    }
  }

  lemma OneSlash(m: Name, n: Name)
    requires n.secondary == "" && Plain(n) && MakeKey(m) == MakeKey(n)
    ensures m == n
  {
    hide MakeKey, Inner;
    KeyIs(m);
    KeyIs(n);
    NoInner(n);
    var key := n.primary + "/" + n.key;
    SlashOnlyAt(n.primary, n.key);
    assert (m.primary + "/" + Inner(m.secondary, m.key))[|m.primary|] == '/';
    assert |m.primary| == |n.primary|;
    assert key[..|m.primary|] == m.primary && key[|m.primary| + 1..] == Inner(m.secondary, m.key);
    SecondaryOf(m, n);
  }

  lemma NoInner(n: Name)
    requires n.secondary == ""
    ensures Inner(n.secondary, n.key) == n.key
  {
  }

  lemma SlashOnlyAt(a: string, b: string)
    requires SlashFree(a) && SlashFree(b)
    ensures forall i :: 0 <= i < |a + "/" + b| && (a + "/" + b)[i] == '/' ==> i == |a|
  {
  }

  // Another name with the same key: the key is split at another slash.
  lemma SharesKey(n: Name) returns (m: Name)
    requires n.secondary != "" || !Plain(n)
    ensures MakeKey(m) == MakeKey(n) && m != n
  {
    if n.secondary != "" {
      SlashCollides(n.primary, n.secondary, n.key);
      m := Name(n.primary, "", n.secondary + "/" + n.key);
    } else if !SlashFree(n.primary) {
      var i :| 0 <= i < |n.primary| && n.primary[i] == '/';
      var a, b := n.primary[..i], n.primary[i + 1..];
      assert n.primary == a + "/" + b;
      assert a + "/" + b + "/" + n.key == a + "/" + (b + "/" + n.key);
      m := Name(a, "", b + "/" + n.key);
    } else {
      var i :| 0 <= i < |n.key| && n.key[i] == '/';
      var a, b := n.key[..i], n.key[i + 1..];
      assert n.key == a + "/" + b;
      assert n.primary + "/" + (a + "/" + b) == n.primary + "/" + a + "/" + b;
      m := Name(n.primary + "/" + a, "", b);
    }
  }

  // Which names fall under a prefix: those of that secondary namespace, or, if none is given, all
  // those of the primary one.
  lemma UnderPrefix(primary: string, secondary: string, n: Name)
    requires SlashFree(primary) && SlashFree(secondary) && Plain(n)
    ensures MakePrefix(primary, secondary) <= MakeKey(n) <==>
              n.primary == primary && (secondary == "" || n.secondary == secondary)
  {
    hide MakeKey, MakePrefix, Inner, SlashFree;
    var prefix := MakePrefix(primary, secondary);
    if prefix <= MakeKey(n) {
      KeyAnswers(n, primary, secondary, MakeKey(n)[|prefix|..]);
    }
    KeyAnswers(n, primary, secondary, if secondary == "" then Inner(n.secondary, n.key) else n.key);
  }

  // ---- The order of the table ----

  predicate Less(a: string, b: string) {
    if a == [] then b != []
    else b != [] && (a[0] < b[0] || (a[0] == b[0] && Less(a[1..], b[1..])))
  }

  lemma {:induction false} LessTotal(a: string, b: string)
    ensures Less(a, b) || a == b || Less(b, a)
    ensures !(Less(a, b) && Less(b, a)) && !Less(a, a)
  {
    if a != [] {
      LessTotal(a[1..], a[1..]);
      if b != [] {
        LessTotal(a[1..], b[1..]);
        assert a == [a[0]] + a[1..] && b == [b[0]] + b[1..];
      }
    }
  }

  lemma {:induction false} LessTransitive(a: string, b: string, c: string)
    requires Less(a, b) && Less(b, c)
    ensures Less(a, c)
  {
    if a != [] && a[0] == b[0] && b[0] == c[0] {
      LessTransitive(a[1..], b[1..], c[1..]);
    }
  }

  function Bumped(prefix: string): string
    requires prefix != "" && prefix[|prefix| - 1] == '/'
  {
    prefix[..|prefix| - 1] + "0"
  }

  predicate InRange(x: string, low: string, high: string) {
    (low == x || Less(low, x)) && Less(x, high)
  }

  // The range from a prefix to the same with '0' for its last '/' holds just what has the prefix.
  lemma {:induction false} RangeIsPrefix(prefix: string, x: string)
    requires prefix != "" && prefix[|prefix| - 1] == '/'
    ensures InRange(x, prefix, Bumped(prefix)) <==> prefix <= x
  {
    var high := Bumped(prefix);
    if |prefix| == 1 {
      assert prefix == "/" && high == "0";
      if x != [] {
        assert x == [x[0]] + x[1..];
        LessEnds(x);
      }
    } else if x != [] {
      assert x == [x[0]] + x[1..] && prefix == [prefix[0]] + prefix[1..];
      assert high == [prefix[0]] + Bumped(prefix[1..]);
      RangeIsPrefix(prefix[1..], x[1..]);
      if prefix <= x { assert prefix[1..] <= x[1..]; }
    }
  }

  // No character lies between '/' and '0'.
  lemma LessEnds(x: string)
    requires x != []
    ensures InRange(x, "/", "0") <==> x[0] == '/'
  {
    var low, high := "/", "0";
    assert low[1..] == "" && high[1..] == "";
    assert x[0] == '/' ==> (x == low <==> x[1..] == "");
    assert Less(low, x) <==> ('/' < x[0] || (x[0] == '/' && x[1..] != ""));
    assert Less(x, high) <==> x[0] < '0';
    assert x[0] < '0' <==> x[0] <= '/';
  }

  // ---- The store ----

  // The table holds just the live names, each under its key.
  ghost predicate Represents(table: map<string, Value>, live: map<Name, Value>) {
    && (forall n :: n in live ==> Plain(n) && MakeKey(n) in table && table[MakeKey(n)] == live[n])
    && (forall k :: k in table ==> exists n :: n in live && MakeKey(n) == k)
  }

  lemma WriteRepresents(table: map<string, Value>, live: map<Name, Value>, n: Name, value: Value)
    requires Represents(table, live) && Plain(n)
    ensures Represents(table[MakeKey(n) := value], live[n := value])
  {
    var t, l := table[MakeKey(n) := value], live[n := value];
    forall m | m in l ensures Plain(m) && MakeKey(m) in t && t[MakeKey(m)] == l[m] {
      if m != n && MakeKey(m) == MakeKey(n) { KeysAreInjective(m, n); }
    }
    forall k | k in t ensures exists m :: m in l && MakeKey(m) == k {
      if k == MakeKey(n) {
        assert n in l;
      } else {
        var m :| m in live && MakeKey(m) == k;
        assert m in l;
      }
    }
  }

  lemma RemoveRepresents(table: map<string, Value>, live: map<Name, Value>, n: Name)
    requires Represents(table, live) && Plain(n)
    ensures Represents(table - {MakeKey(n)}, live - {n})
  {
    var t, l := table - {MakeKey(n)}, live - {n};
    forall m | m in l ensures Plain(m) && MakeKey(m) in t && t[MakeKey(m)] == l[m] {
      if MakeKey(m) == MakeKey(n) { KeysAreInjective(m, n); }
    }
    forall k | k in t ensures exists m :: m in l && MakeKey(m) == k {
      var m :| m in live && MakeKey(m) == k;
      assert m in l;
    }
  }

  class KvStore {
    var table: map<string, Value>
    // What the store is meant to be: a map from names to values.
    ghost var live: map<Name, Value>

    ghost predicate Valid()
      reads this
    {
      Represents(table, live)
    }

    constructor ()
      ensures Valid() && live == map[]
    {
      table, live := map[], map[];
    }

    method Read(n: Name) returns (r: Option<Value>)
      ensures r == if MakeKey(n) in table then Some(table[MakeKey(n)]) else None
      ensures Valid() && Plain(n) ==> r == if n in live then Some(live[n]) else None
    {
      var key := MakeKey(n);
      if Valid() && Plain(n) && key in table {
        ghost var m :| m in live && MakeKey(m) == key;
        KeysAreInjective(m, n);
      }
      return if key in table then Some(table[key]) else None;
    }

    // `works` says whether the database takes the write.
    method Write(n: Name, value: Value, works: bool) returns (ok: bool)
      modifies this
      ensures ok == works && table == if works then old(table)[MakeKey(n) := value] else old(table)
      ensures old(Valid()) && Plain(n) ==> Valid() && live == if works then old(live)[n := value] else old(live)
    {
      if !works { return false; }
      if Valid() && Plain(n) { WriteRepresents(table, live, n, value); }
      table := table[MakeKey(n) := value];
      live := live[n := value];
      return true;
    }

    method Remove(n: Name, works: bool) returns (ok: bool)
      modifies this
      ensures ok == works && table == if works then old(table) - {MakeKey(n)} else old(table)
      ensures old(Valid()) && Plain(n) ==> Valid() && live == if works then old(live) - {n} else old(live)
    {
      if !works { return false; }
      if Valid() && Plain(n) { RemoveRepresents(table, live, n); }
      table := table - {MakeKey(n)};
      live := live - {n};
      return true;
    }

    // The keys of the table in a range, in order.
    method Range(low: string, high: string) returns (keys: seq<string>)
      ensures forall k :: k in keys <==> k in table && InRange(k, low, high)
      ensures forall i, j :: 0 <= i < j < |keys| ==> Less(keys[i], keys[j])
    {
      hide InRange, Less;
      keys := [];
      var todo := set k | k in table && InRange(k, low, high);
      ghost var all := todo;
      while todo != {}
        invariant todo <= all
        invariant forall k :: k in keys <==> k in all && k !in todo
        invariant forall i, j :: 0 <= i < j < |keys| ==> Less(keys[i], keys[j])
        invariant forall i, k :: 0 <= i < |keys| && k in todo ==> Less(keys[i], k)
        decreases todo
      {
        var k := Least(todo);
        keys := keys + [k];
        todo := todo - {k};
      }
    }

    // The keys of a namespace. Without a secondary namespace, the keys of every secondary one come
    // too, each after its namespace and a slash; with one, the answer is exact.
    method List(primary: string, secondary: string) returns (keys: seq<string>)
      ensures forall k :: k in keys <==> MakePrefix(primary, secondary) + k in table
      ensures forall i, j :: 0 <= i < j < |keys| ==> Less(keys[i], keys[j])
      ensures Valid() && SlashFree(primary) && SlashFree(secondary) ==>
                && (forall k :: k in keys <==> Listed(live, primary, secondary, k))
                && ((forall k :: k in keys <==> Name(primary, secondary, k) in live) <==>
                      secondary != "" || forall n :: n in live && n.primary == primary ==> n.secondary == "")
    {
      hide Less, InRange, Represents, Listed, MakeKey;
      var prefix := MakePrefix(primary, secondary);
      var found := Range(prefix, Bumped(prefix));
      keys := [];
      var i := 0;
      while i < |found|
        invariant i == |keys| <= |found|
        invariant forall j :: 0 <= j < i ==> found[j] == prefix + keys[j]
      {
        RangeIsPrefix(prefix, found[i]);
        assert found[i] in found;
        if prefix <= found[i] {
          assert found[i] == prefix + found[i][|prefix|..];
          keys := keys + [found[i][|prefix|..]];
        }
        i := i + 1;
      }
      ListIsFound(table, prefix, found, keys);
      if Valid() && SlashFree(primary) && SlashFree(secondary) {
        forall k ensures k in keys <==> Listed(live, primary, secondary, k) {
          TableLists(table, live, primary, secondary, k);
        }
        ListExactlyWhen(live, primary, secondary, table);
      }
    }
  }

  lemma {:induction false} LessSuffix(prefix: string, a: string, b: string)
    ensures Less(prefix + a, prefix + b) <==> Less(a, b)
  {
    if prefix == [] {
      assert prefix + a == a && prefix + b == b;
    } else {
      assert (prefix + a)[1..] == prefix[1..] + a && (prefix + b)[1..] == prefix[1..] + b;
      LessSuffix(prefix[1..], a, b);
    }
  }

  // Stripping the prefix off what the range holds.
  lemma ListIsFound(table: map<string, Value>, prefix: string, found: seq<string>, keys: seq<string>)
    requires prefix != "" && prefix[|prefix| - 1] == '/' && |keys| == |found|
    requires forall k :: k in found <==> k in table && InRange(k, prefix, Bumped(prefix))
    requires forall i, j :: 0 <= i < j < |found| ==> Less(found[i], found[j])
    requires forall j :: 0 <= j < |found| ==> found[j] == prefix + keys[j]
    ensures forall k :: k in keys <==> prefix + k in table
    ensures forall i, j :: 0 <= i < j < |keys| ==> Less(keys[i], keys[j])
  {
    hide Less, InRange;
    forall k ensures k in keys <==> prefix + k in table {
      RangeIsPrefix(prefix, prefix + k);
      if k in keys {
        var j :| 0 <= j < |keys| && keys[j] == k;
        assert found[j] in found;
      }
      if prefix + k in table {
        assert prefix <= prefix + k;
        var j :| 0 <= j < |found| && found[j] == prefix + k;
        assert (prefix + k)[|prefix|..] == k && (prefix + keys[j])[|prefix|..] == keys[j];
      }
    }
    forall i, j | 0 <= i < j < |keys| ensures Less(keys[i], keys[j]) {
      LessSuffix(prefix, keys[i], keys[j]);
    }
  }

  lemma TableLists(table: map<string, Value>, live: map<Name, Value>, primary: string, secondary: string, k: string)
    requires Represents(table, live) && SlashFree(primary) && SlashFree(secondary)
    ensures MakePrefix(primary, secondary) + k in table <==> Listed(live, primary, secondary, k)
  {
    hide MakeKey, MakePrefix, SlashFree, Answers, Plain;
    var key := MakePrefix(primary, secondary) + k;
    if key in table {
      var n :| n in live && MakeKey(n) == key;
      KeyAnswers(n, primary, secondary, k);
    }
    if Listed(live, primary, secondary, k) {
      var n :| n in live && Answers(n, primary, secondary, k);
      KeyAnswers(n, primary, secondary, k);
    }
  }

  // Listing gives just the keys of the namespace exactly when a secondary one is named, or none of
  // the live names has one.
  lemma ListExactlyWhen(live: map<Name, Value>, primary: string, secondary: string, table: map<string, Value>)
    requires Represents(table, live)
    ensures (forall k :: Listed(live, primary, secondary, k) <==> Name(primary, secondary, k) in live) <==>
              secondary != "" || forall n :: n in live && n.primary == primary ==> n.secondary == ""
  {
    hide Represents, Listed, Plain;
    if secondary == "" && exists n :: n in live && n.primary == primary && n.secondary != "" {
      var n :| n in live && n.primary == primary && n.secondary != "";
      SecondaryIsListed(live, table, n);
    } else {
      forall k ensures Listed(live, primary, secondary, k) <==> Name(primary, secondary, k) in live {
        ListedIsLive(live, primary, secondary, k);
      }
    }
  }

  lemma SecondaryIsListed(live: map<Name, Value>, table: map<string, Value>, n: Name)
    requires Represents(table, live) && n in live && n.secondary != ""
    ensures var k := n.secondary + "/" + n.key;
            Listed(live, n.primary, "", k) && Name(n.primary, "", k) !in live
  {
    hide MakeKey;
    var k := n.secondary + "/" + n.key;
    assert k[|n.secondary|] == '/';
    assert !Plain(Name(n.primary, "", k));
    assert Answers(n, n.primary, "", k);
  }

  lemma ListedIsLive(live: map<Name, Value>, primary: string, secondary: string, k: string)
    requires secondary != "" || forall n :: n in live && n.primary == primary ==> n.secondary == ""
    ensures Listed(live, primary, secondary, k) <==> Name(primary, secondary, k) in live
  {
    if Listed(live, primary, secondary, k) {
      var n :| n in live && Answers(n, primary, secondary, k);
      assert n == Name(primary, secondary, k);
    }
    if Name(primary, secondary, k) in live {
      assert Answers(Name(primary, secondary, k), primary, secondary, k);
    }
  }

  // What `List` answers for a set of live names.
  ghost predicate Listed(live: map<Name, Value>, primary: string, secondary: string, k: string) {
    exists n :: n in live && Answers(n, primary, secondary, k)
  }

  method Least(keys: set<string>) returns (least: string)
    requires keys != {}
    ensures least in keys && forall k :: k in keys && k != least ==> Less(least, k)
  {
    hide Less;
    least :| least in keys;
    var todo := keys;
    while todo != {}
      invariant todo <= keys && least in keys
      invariant forall k :: k in keys && k !in todo && k != least ==> Less(least, k)
      decreases todo
    {
      var k :| k in todo;
      todo := todo - {k};
      LessTotal(k, least);
      if Less(k, least) {
        forall x | x in keys && x !in todo && x != k ensures Less(k, x) {
          if x != least { LessTransitive(k, least, x); }
        }
        least := k;
      }
    }
  }
}
