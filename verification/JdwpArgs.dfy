/**
 The options of the JDWP agent: the parser and printer of adbconnection/jdwpargs.cc and the options
 that MakeAgentArg (adbconnection/adbconnection.cc) passes on.

 The package name is empty where the process has none, and on hosts, where the log file is left alone.
 */
module JdwpArgs {
  // --- Strings --------------------------------------------------------------------------------------

  /** The first place of a character, or the length. */
  function Find(s: string, c: char): (i: nat)
    ensures i <= |s| && (i < |s| ==> s[i] == c) && c !in s[..i]
  {
    if s == [] || s[0] == c then 0
    else
      var i := 1 + Find(s[1..], c);
      assert s[..i] == [s[0]] + s[1..][..i - 1];
      i
  }

  lemma {:induction false} FindFirst(a: string, c: char, b: string)
    requires c !in a
    ensures Find(a + [c] + b, c) == |a|
  {
    var s := a + [c] + b;
    if a != [] {
      assert s[1..] == a[1..] + [c] + b;
      FindFirst(a[1..], c, b);
    }
  }

  lemma FindNone(s: string, c: char)
    requires c !in s
    ensures Find(s, c) == |s|
  {
  }

  predicate IsSpace(c: char) {
    c == ' ' || 9 <= c as int <= 13
  }

  function Strip(s: string): (r: string)
    ensures forall c :: c in r ==> c in s && !IsSpace(c)
  {
    if s == [] then [] else (if IsSpace(s[0]) then [] else [s[0]]) + Strip(s[1..])
  }

  lemma {:induction false} StripNothing(s: string)
    requires forall c :: c in s ==> !IsSpace(c)
    ensures Strip(s) == s
  {
    if s != [] {
      StripNothing(s[1..]);
    }
  }

  /** The pieces between commas, one more than there are commas. */
  function Split(s: string): (ts: seq<string>)
    ensures |ts| >= 1
    decreases |s|
  {
    var i := Find(s, ',');
    if i == |s| then [s] else [s[..i]] + Split(s[i + 1..])
  }

  // --- The store ------------------------------------------------------------------------------------

  /** Keys in the order of their first insertion, and the last value of each. */
  datatype Args = Args(keys: seq<string>, store: map<string, string>)

  const NO_ARGS := Args([], map[])

  function Put(a: Args, key: string, value: string): Args {
    Args(if key in a.store then a.keys else a.keys + [key], a.store[key := value])
  }

  /** A token is dropped unless it has something on both sides of its first equals sign. */
  function Take(a: Args, token: string): Args {
    var w := Strip(token);
    var pos := Find(w, '=');
    if pos == |w| || w[|w| - 1] == '=' || w[0] == '=' then a else Put(a, w[..pos], w[pos + 1..])
  }

  function TakeAll(a: Args, tokens: seq<string>): Args
    decreases |tokens|
  {
    if tokens == [] then a else TakeAll(Take(a, tokens[0]), tokens[1..])
  }

  lemma SplitStep(s: string)
    ensures var i, ts := Find(s, ','), Split(s);
            ts[0] == s[..i] && ts[1..] == if i == |s| then [] else Split(s[i + 1..])
  {
    hide Find;
    var i := Find(s, ',');
    if i == |s| {
      assert Split(s) == [s] && s[..i] == s;
    } else {
      var others := Split(s[i + 1..]);
      assert Split(s) == [s[..i]] + others;
      hide Split;
    }
  }

  lemma TakeFirst(a: Args, tokens: seq<string>)
    requires tokens != []
    ensures TakeAll(a, tokens) == TakeAll(Take(a, tokens[0]), tokens[1..])
  {
  }

  lemma TakeNone(a: Args)
    ensures TakeAll(a, []) == a
  {
  }

  function Parse(opts: string): Args {
    TakeAll(NO_ARGS, Split(opts))
  }

  /** The first `n` keys with their values, a comma behind each. */
  function Listing(a: Args, n: nat): string
    requires n <= |a.keys| && forall k :: k in a.keys ==> k in a.store
  {
    if n == 0 then "" else Listing(a, n - 1) + Entry(a, n - 1) + ","
  }

  function Entry(a: Args, i: nat): (e: string)
    requires i < |a.keys| && forall k :: k in a.keys ==> k in a.store
  {
    a.keys[i] + "=" + a.store[a.keys[i]]
  }

  function Join(a: Args): string
    requires forall k :: k in a.keys ==> k in a.store
  {
    var opts := Listing(a, |a.keys|);
    if |opts| >= 2 then opts[..|opts| - 1] else opts
  }

  // --- What can be stored ---------------------------------------------------------------------------

  predicate Plain(s: string) {
    s != [] && forall c :: c in s ==> c != ',' && !IsSpace(c)
  }

  predicate GoodKey(k: string) {
    Plain(k) && '=' !in k
  }

  predicate GoodValue(v: string) {
    Plain(v) && v[|v| - 1] != '='
  }

  /** The keys are the store's, each listed once. */
  ghost predicate Consistent(a: Args) {
    && (forall i, j :: 0 <= i < j < |a.keys| ==> a.keys[i] != a.keys[j])
    && (forall k :: k in a.keys <==> k in a.store)
  }

  ghost predicate WellFormed(a: Args) {
    Consistent(a) && forall k :: k in a.store ==> GoodKey(k) && GoodValue(a.store[k])
  }

  lemma PutKeepsWellFormed(a: Args, key: string, value: string)
    requires WellFormed(a) && GoodKey(key) && GoodValue(value)
    ensures WellFormed(Put(a, key, value))
  {
    hide GoodKey, GoodValue;
  }

  lemma {:induction false} SplitHasNoCommas(s: string)
    ensures forall t :: t in Split(s) ==> ',' !in t
    decreases |s|
  {
    hide Find;
    var i := Find(s, ',');
    if i < |s| {
      SplitHasNoCommas(s[i + 1..]);
      hide Split;
    } else {
      assert s[..i] == s;
    }
  }

  lemma TakeKeepsWellFormed(a: Args, token: string)
    requires WellFormed(a) && ',' !in token
    ensures WellFormed(Take(a, token))
  {
    hide WellFormed, Strip, Find, Put, GoodKey, GoodValue;
    var w := Strip(token);
    var pos := Find(w, '=');
    if !(pos == |w| || w[|w| - 1] == '=' || w[0] == '=') {
      TokenParts(w, pos);
      PutKeepsWellFormed(a, w[..pos], w[pos + 1..]);
    }
  }

  lemma TokenParts(w: string, pos: nat)
    requires pos < |w| && w[0] != '=' && w[|w| - 1] != '=' && w[pos] == '=' && '=' !in w[..pos]
    requires forall c :: c in w ==> c != ',' && !IsSpace(c)
    ensures GoodKey(w[..pos]) && GoodValue(w[pos + 1..])
  {
    var key, value := w[..pos], w[pos + 1..];
    assert value[|value| - 1] == w[|w| - 1];
    assert forall c :: c in key || c in value ==> c in w;
  }

  lemma {:induction false} TakeAllKeepsWellFormed(a: Args, tokens: seq<string>)
    requires WellFormed(a) && forall t :: t in tokens ==> ',' !in t
    ensures WellFormed(TakeAll(a, tokens))
    decreases |tokens|
  {
    if tokens != [] {
      TakeKeepsWellFormed(a, tokens[0]);
      hide WellFormed, Take;
      TakeAllKeepsWellFormed(Take(a, tokens[0]), tokens[1..]);
    }
  }

  /** Whatever the options, the keys are duplicate-free, those of the store, and fit to be printed. */
  lemma ParseWellFormed(opts: string)
    ensures WellFormed(Parse(opts))
  {
    SplitHasNoCommas(opts);
    TakeAllKeepsWellFormed(NO_ARGS, Split(opts));
  }

  // --- Printing and parsing again -------------------------------------------------------------------

  function Entries(a: Args, n: nat): (es: seq<string>)
    requires n <= |a.keys| && forall k :: k in a.keys ==> k in a.store
    ensures |es| == n
  {
    if n == 0 then [] else Entries(a, n - 1) + [Entry(a, n - 1)]
  }

  /** Splitting a listing gives its entries and an empty rest. */
  lemma {:induction false} SplitListing(a: Args, n: nat, tail: string)
    requires WellFormed(a) && n <= |a.keys|
    ensures Split(Listing(a, n) + tail) == Entries(a, n) + Split(tail)
    decreases n
  {
    hide WellFormed, Entry, Listing, Split, Entries;
    ListingStep(a, n, tail);
    if n > 0 {
      var e := Entry(a, n - 1);
      SplitListing(a, n - 1, e + "," + tail);
      EntryHasNoComma(a, n - 1);
      SplitFirst(e, tail);
      assert Entries(a, n - 1) + [e] + Split(tail) == Entries(a, n - 1) + ([e] + Split(tail));
    } else {
      assert Entries(a, 0) + Split(tail) == Split(tail);
    }
  }

  lemma ListingStep(a: Args, n: nat, tail: string)
    requires WellFormed(a) && n <= |a.keys|
    ensures Consistent(a)
    ensures n == 0 ==> Listing(a, n) + tail == tail
    ensures n > 0 ==> Listing(a, n) + tail == Listing(a, n - 1) + (Entry(a, n - 1) + "," + tail)
    ensures n > 0 ==> Entries(a, n) == Entries(a, n - 1) + [Entry(a, n - 1)]
  {
    hide Entry, GoodKey, GoodValue;
  }

  lemma SplitFirst(e: string, tail: string)
    requires ',' !in e
    ensures Split(e + "," + tail) == [e] + Split(tail)
  {
    var s := e + "," + tail;
    FindFirst(e, ',', tail);
    assert s[..|e|] == e && s[|e| + 1..] == tail;
  }

  lemma EntryHasNoComma(a: Args, i: nat)
    requires WellFormed(a) && i < |a.keys|
    ensures ',' !in Entry(a, i)
  {
    var k := a.keys[i];
    assert k in a.store && GoodKey(k) && GoodValue(a.store[k]);
  }

  /** Taking an entry puts its key and value. */
  lemma TakeEntry(a: Args, key: string, value: string)
    requires GoodKey(key) && GoodValue(value)
    ensures Take(a, key + "=" + value) == Put(a, key, value)
  {
    hide Strip, Find, Put, GoodKey, GoodValue;
    var w := key + "=" + value;
    EntryParts(key, value);
  }

  lemma EntryParts(key: string, value: string)
    requires GoodKey(key) && GoodValue(value)
    ensures var w := key + "=" + value;
            && Strip(w) == w && Find(w, '=') == |key| && w[..|key|] == key && w[|key| + 1..] == value
            && |w| > |key| && w[0] != '=' && w[|w| - 1] != '='
  {
    var w := key + "=" + value;
    assert forall c :: c in w ==> !IsSpace(c);
    hide Strip, Find;
    StripNothing(w);
    FindFirst(key, '=', value);
    assert w[..|key|] == key && w[|key| + 1..] == value;
    assert w[|w| - 1] == value[|value| - 1] && w[0] == key[0];
  }

  /** The store with the first `n` keys. */
  function Part(a: Args, n: nat): Args
    requires n <= |a.keys| && forall k :: k in a.keys ==> k in a.store
  {
    Args(a.keys[..n], map k | k in a.keys[..n] :: a.store[k])
  }

  lemma PutNext(a: Args, n: nat)
    requires WellFormed(a) && n < |a.keys|
    ensures Put(Part(a, n), a.keys[n], a.store[a.keys[n]]) == Part(a, n + 1)
  {
    hide GoodKey, GoodValue;
    PartMore(a, n);
    assert a.keys[n] !in a.keys[..n];
  }

  lemma PartMore(a: Args, n: nat)
    requires n < |a.keys| && forall k :: k in a.keys ==> k in a.store
    ensures Part(a, n + 1).keys == Part(a, n).keys + [a.keys[n]]
    ensures Part(a, n + 1).store == Part(a, n).store[a.keys[n] := a.store[a.keys[n]]]
    ensures a.keys[n] in Part(a, n).store <==> a.keys[n] in a.keys[..n]
  {
    assert a.keys[..n + 1] == a.keys[..n] + [a.keys[n]];
  }

  lemma {:induction false} TakeEntries(a: Args, n: nat)
    requires WellFormed(a) && n <= |a.keys|
    ensures TakeAll(NO_ARGS, Entries(a, n)) == Part(a, n)
    decreases n
  {
    if n > 0 {
      TakeEntries(a, n - 1);
      var key := a.keys[n - 1];
      assert key in a.store && GoodKey(key) && GoodValue(a.store[key]);
      TakeEntry(Part(a, n - 1), key, a.store[key]);
      PutNext(a, n - 1);
      hide Take, Put, Part, WellFormed, GoodKey, GoodValue;
      TakeAllAppend(NO_ARGS, Entries(a, n - 1), Entry(a, n - 1));
    }
  }

  lemma {:induction false} TakeAllAppend(a: Args, tokens: seq<string>, t: string)
    ensures TakeAll(a, tokens + [t]) == Take(TakeAll(a, tokens), t)
    decreases |tokens|
  {
    hide Take;
    if tokens == [] {
      assert tokens + [t] == [t] && [t][1..] == [];
    } else {
      assert (tokens + [t])[1..] == tokens[1..] + [t];
      TakeAllAppend(Take(a, tokens[0]), tokens[1..], t);
    }
  }

  /** What is printed is the entries, separated by commas. */
  lemma SplitJoin(a: Args)
    requires WellFormed(a) && a.keys != []
    ensures Split(Join(a)) == Entries(a, |a.keys|)
  {
    var n := |a.keys|;
    var e := Entry(a, n - 1);
    assert |e| >= 1;
    assert Join(a) == Listing(a, n - 1) + e;
    hide Listing, Entry, WellFormed, Join;
    SplitListing(a, n - 1, e);
    EntryHasNoComma(a, n - 1);
    FindNone(e, ',');
  }

  lemma WholePart(a: Args)
    requires Consistent(a)
    ensures Part(a, |a.keys|) == a
  {
    assert a.keys[..|a.keys|] == a.keys;
  }

  lemma JoinParses(a: Args)
    requires WellFormed(a)
    ensures Parse(Join(a)) == a
  {
    WholePart(a);
    if a.keys == [] {
      assert Split("") == [""];
    } else {
      hide Join, Split, TakeAll, Part;
      SplitJoin(a);
      TakeEntries(a, |a.keys|);
    }
  }

  /** A store survives printing and parsing exactly when it is well formed. */
  lemma RoundTrip(a: Args)
    requires Consistent(a)
    ensures Parse(Join(a)) == a <==> WellFormed(a)
  {
    if WellFormed(a) {
      JoinParses(a);
    }
    ParseWellFormed(Join(a));
  }

  /** Options parsed, printed and parsed again: the same keys in the same order, the same values. */
  lemma Reparse(opts: string)
    ensures Consistent(Parse(opts)) && Parse(Join(Parse(opts))) == Parse(opts)
  {
    ParseWellFormed(opts);
    JoinParses(Parse(opts));
  }

  // --- The class ------------------------------------------------------------------------------------

  class JdwpArgs {
    var keys: seq<string>
    var store: map<string, string>

    ghost function Value(): Args
      reads this
    {
      Args(keys, store)
    }

    /** A token at a time, the last one ending with the options. */
    constructor (opts: string)
      ensures Value() == Parse(opts)
    {
      keys, store := [], map[];
      new;
      hide Find, Split, TakeAll, Take;
      var rest, eof := opts, false;
      while !eof
        invariant if eof then Value() == Parse(opts) else TakeAll(Value(), Split(rest)) == Parse(opts)
        decreases if eof then 0 else 1 + |rest|
      {
        var end := Find(rest, ',');
        SplitStep(rest);
        TakeFirst(Value(), Split(rest));
        PutToken(rest[..end]);
        if end == |rest| {
          TakeNone(Value());
          eof := true;
        } else {
          rest := rest[end + 1..];
        }
      }
    }

    /** A token without its white space; one without a key or a value is ignored. */
    method PutToken(token: string)
      modifies this
      ensures Value() == Take(old(Value()), token)
    {
      hide Find, Strip;
      var w := Strip(token);
      var pos := Find(w, '=');
      if !(pos == |w| || w[|w| - 1] == '=' || w[0] == '=') {
        PutArg(w[..pos], w[pos + 1..]);
      }
    }

    method PutArg(key: string, value: string)
      modifies this
      ensures Value() == Put(old(Value()), key, value)
    {
      if key !in store {
        keys := keys + [key];
      }
      store := store[key := value];
    }

    method JoinArgs() returns (opts: string)
      requires forall k :: k in keys ==> k in store
      ensures opts == Join(Value())
    {
      opts := "";
      for i := 0 to |keys|
        invariant opts == Listing(Value(), i)
      {
        opts := opts + (keys[i] + "=" + store[keys[i]] + ",");
      }
      if |opts| >= 2 {
        opts := opts[..|opts| - 1];
      }
    }
  }

  // --- The agent's options --------------------------------------------------------------------------

  const SERVER := "server"
  const SUSPEND := "suspend"
  const DDM := "ddm_already_active"
  const TRANSPORT := "transport"
  const ADDRESS := "address"

  function AgentArgs(user: Args, ddmActive: bool, address: string): Args {
    var a := Put(Put(user, SERVER, "y"), SUSPEND, "n");
    Put(Put(Put(a, DDM, if ddmActive then "y" else "n"), TRANSPORT, "dt_fd_forward"), ADDRESS, address)
  }

  lemma NamesGood()
    ensures GoodKey(SERVER) && GoodKey(SUSPEND) && GoodKey(DDM) && GoodKey(TRANSPORT) && GoodKey(ADDRESS)
    ensures GoodValue("y") && GoodValue("n") && GoodValue("dt_fd_forward")
  {
    hide Letters, GoodKey, GoodValue;
    NamesLetters();
    LettersGood(SERVER);
    LettersGood(SUSPEND);
    LettersGood(DDM);
    LettersGood(TRANSPORT);
    LettersGood(ADDRESS);
    LettersGood("y");
    LettersGood("n");
    LettersGood("dt_fd_forward");
  }

  lemma NamesLetters()
    ensures Letters(SERVER) && Letters(SUSPEND) && Letters(DDM) && Letters(TRANSPORT) && Letters(ADDRESS)
    ensures Letters("y") && Letters("n") && Letters("dt_fd_forward")
  {
  }

  predicate IsLetter(c: char) {
    'a' <= c <= 'z' || c == '_'
  }

  predicate Letters(s: string) {
    forall i :: 0 <= i < |s| ==> IsLetter(s[i])
  }

  lemma LettersGood(s: string)
    requires Letters(s) && s != []
    ensures GoodKey(s) && GoodValue(s)
  {
    assert forall c :: c in s ==> IsLetter(c);
  }

  lemma AgentArgsWellFormed(user: Args, ddmActive: bool, address: string)
    requires WellFormed(user) && GoodValue(address)
    ensures WellFormed(AgentArgs(user, ddmActive, address))
  {
    NamesGood();
    hide WellFormed, GoodKey, GoodValue, Put;
    var a := Put(user, SERVER, "y");
    PutKeepsWellFormed(user, SERVER, "y");
    var b := Put(a, SUSPEND, "n");
    PutKeepsWellFormed(a, SUSPEND, "n");
    var ddm := if ddmActive then "y" else "n";
    var c := Put(b, DDM, ddm);
    PutKeepsWellFormed(b, DDM, ddm);
    var d := Put(c, TRANSPORT, "dt_fd_forward");
    PutKeepsWellFormed(c, TRANSPORT, "dt_fd_forward");
    PutKeepsWellFormed(d, ADDRESS, address);
  }

  /** The first of two keys comes before the second. */
  ghost predicate Before(keys: seq<string>, x: string, y: string) {
    exists i, j :: 0 <= i < j < |keys| && keys[i] == x && keys[j] == y
  }

  /** The user's options name the address, and no transport before it. */
  ghost predicate AddressFirst(user: Args) {
    ADDRESS in user.keys && !Before(user.keys, TRANSPORT, ADDRESS)
  }

  lemma NamesDiffer()
    ensures SERVER != SUSPEND && SERVER != DDM && SERVER != TRANSPORT && SERVER != ADDRESS
    ensures SUSPEND != DDM && SUSPEND != TRANSPORT && SUSPEND != ADDRESS
    ensures DDM != TRANSPORT && DDM != ADDRESS && TRANSPORT != ADDRESS
  {
    assert |SERVER| == 6 && |SUSPEND| == |ADDRESS| == 7 && |DDM| == 18 && |TRANSPORT| == 9;
    assert SUSPEND[0] != ADDRESS[0];
  }

  /** The keys after the puts are the user's, then those that were not among them. */
  lemma AgentKeys(user: Args, ddmActive: bool, address: string) returns (tail: seq<string>)
    ensures AgentArgs(user, ddmActive, address).keys == user.keys + tail
    ensures forall k :: k in tail ==> k !in user.store
    ensures ADDRESS !in user.store ==> tail != [] && tail[|tail| - 1] == ADDRESS
    ensures TRANSPORT !in user.store ==> TRANSPORT in tail
  {
    NamesDiffer();
    tail := PutFive(user, SERVER, "y", SUSPEND, "n", DDM, if ddmActive then "y" else "n",
                    TRANSPORT, "dt_fd_forward", ADDRESS, address);
  }

  lemma PutKeys(a: Args, key: string, value: string)
    ensures Put(a, key, value).keys == a.keys + AddedKey(a.store, key)
    ensures forall k :: k in Put(a, key, value).store <==> k in a.store || k == key
  {
  }

  lemma PutFive(user: Args, k1: string, v1: string, k2: string, v2: string, k3: string, v3: string,
                k4: string, v4: string, k5: string, v5: string)
    returns (tail: seq<string>)
    requires k1 != k4 && k2 != k4 && k3 != k4 && k1 != k5 && k2 != k5 && k3 != k5 && k4 != k5
    requires k1 != k2 && k1 != k3 && k2 != k3
    ensures Put(Put(Put(Put(Put(user, k1, v1), k2, v2), k3, v3), k4, v4), k5, v5).keys == user.keys + tail
    ensures forall k :: k in tail ==> k !in user.store
    ensures k5 !in user.store ==> tail != [] && tail[|tail| - 1] == k5
    ensures k4 !in user.store ==> k4 in tail
  {
    hide Put, AddedKey;
    var three := AddedKey(user.store, k1) + AddedKey(user.store, k2) + AddedKey(user.store, k3);
    var c := Put(Put(Put(user, k1, v1), k2, v2), k3, v3);
    PutThree(user, k1, v1, k2, v2, k3, v3);
    var d := Put(c, k4, v4);
    PutKeys(c, k4, v4);
    PutKeys(d, k5, v5);
    tail := three + (AddedKey(user.store, k4) + AddedKey(user.store, k5));
    AddedSame(c.store, user.store, k4);
    AddedSame(d.store, user.store, k5);
    assert user.keys + tail == user.keys + three + AddedKey(user.store, k4) + AddedKey(user.store, k5);
    TailKeys(user.store, three, k4, k5);
  }

  lemma AddedSame(s: map<string, string>, t: map<string, string>, key: string)
    requires key in s <==> key in t
    ensures AddedKey(s, key) == AddedKey(t, key)
  {
  }

  lemma TailKeys(store: map<string, string>, three: seq<string>, k4: string, k5: string)
    requires forall k :: k in three ==> k !in store
    ensures var tail := three + (AddedKey(store, k4) + AddedKey(store, k5));
            && (forall k :: k in tail ==> k !in store)
            && (k5 !in store ==> tail != [] && tail[|tail| - 1] == k5)
            && (k4 !in store ==> k4 in tail)
  {
    var tail := three + (AddedKey(store, k4) + AddedKey(store, k5));
    assert k4 !in store ==> tail[|three|] == k4;
  }

  lemma PutThree(user: Args, k1: string, v1: string, k2: string, v2: string, k3: string, v3: string)
    requires k1 != k2 && k1 != k3 && k2 != k3
    ensures var r := Put(Put(Put(user, k1, v1), k2, v2), k3, v3);
            && r.keys == user.keys + (AddedKey(user.store, k1) + AddedKey(user.store, k2) + AddedKey(user.store, k3))
            && (forall k :: k in r.store <==> k in user.store || k in [k1, k2, k3])
            && forall k :: k in AddedKey(user.store, k1) + AddedKey(user.store, k2) + AddedKey(user.store, k3) ==>
                 k !in user.store
  {
    hide Put;
    var a := Put(user, k1, v1);
    PutKeys(user, k1, v1);
    var b := Put(a, k2, v2);
    PutKeys(a, k2, v2);
    PutKeys(b, k3, v3);
  }

  function AddedKey(store: map<string, string>, key: string): seq<string> {
    if key in store then [] else [key]
  }

  lemma BeforePrefix(keys: seq<string>, tail: seq<string>, x: string, y: string)
    requires y in keys && y !in tail
    ensures Before(keys + tail, x, y) <==> Before(keys, x, y)
  {
    var all := keys + tail;
    if Before(all, x, y) {
      var i, j :| 0 <= i < j < |all| && all[i] == x && all[j] == y;
      assert forall m :: |keys| <= m < |all| ==> all[m] == tail[m - |keys|];
      assert keys[i] == x && keys[j] == y;
    }
    if Before(keys, x, y) {
      var i, j :| 0 <= i < j < |keys| && keys[i] == x && keys[j] == y;
      assert all[i] == x && all[j] == y;
    }
  }

  /** The transport comes before the address exactly when the user's options do not prevent it. */
  lemma AgentOrder(user: Args, ddmActive: bool, address: string)
    requires Consistent(user)
    ensures Before(AgentArgs(user, ddmActive, address).keys, TRANSPORT, ADDRESS) <==> !AddressFirst(user)
  {
    NamesDiffer();
    var tail := AgentKeys(user, ddmActive, address);
    hide AgentArgs;
    var all := user.keys + tail;
    if ADDRESS in user.keys {
      BeforePrefix(user.keys, tail, TRANSPORT, ADDRESS);
    } else {
      assert TRANSPORT in all;
      var i :| 0 <= i < |all| && all[i] == TRANSPORT;
      var last := |all| - 1;
      assert all[last] == ADDRESS && i < last;
    }
  }

  lemma AgentValues(user: Args, ddmActive: bool, address: string)
    ensures var m := AgentArgs(user, ddmActive, address).store;
            && SERVER in m && m[SERVER] == "y" && SUSPEND in m && m[SUSPEND] == "n"
            && DDM in m && m[DDM] == (if ddmActive then "y" else "n")
            && TRANSPORT in m && m[TRANSPORT] == "dt_fd_forward" && ADDRESS in m && m[ADDRESS] == address
            && forall k :: k in user.store && k !in {SERVER, SUSPEND, DDM, TRANSPORT, ADDRESS} ==>
                 k in m && m[k] == user.store[k]
  {
    NamesDiffer();
  }

  const LOGFILE := "logfile"
  const DATA := "/data/data/"

  /** A relative log file is put into the package's own directory. */
  function FixLogfile(a: Args, package: string): Args
    requires LOGFILE in a.store ==> a.store[LOGFILE] != ""
  {
    if LOGFILE !in a.store || a.store[LOGFILE][0] == '/' || package == "" then a
    else Put(a, LOGFILE, DATA + package + "/" + a.store[LOGFILE])
  }

  lemma LogfileGood(package: string, file: string)
    requires Plain(package) && GoodValue(file)
    ensures GoodValue(DATA + package + "/" + file)
  {
    var v := DATA + package + "/" + file;
    assert v[|v| - 1] == file[|file| - 1];
    forall c | c in v
      ensures c != ',' && !IsSpace(c)
    {
      assert c in DATA || c in package || c == '/' || c in file;
    }
  }

  lemma LogfileName()
    ensures GoodKey(LOGFILE) && LOGFILE !in {SERVER, SUSPEND, DDM, TRANSPORT, ADDRESS}
  {
    assert Letters(LOGFILE);
    LettersGood(LOGFILE);
    assert LOGFILE[0] == 'l' && SERVER[0] == SUSPEND[0] == 's' && DDM[0] == 'd' && TRANSPORT[0] == 't' && ADDRESS[0] == 'a';
  }

  lemma FixKeepsWellFormed(a: Args, package: string)
    requires WellFormed(a) && (package == "" || Plain(package))
    ensures LOGFILE in a.store ==> a.store[LOGFILE] != ""
    ensures WellFormed(FixLogfile(a, package)) && FixLogfile(a, package).keys == a.keys
    ensures FixLogfile(a, package).store - {LOGFILE} == a.store - {LOGFILE}
    ensures package != "" && LOGFILE in a.store ==> FixLogfile(a, package).store[LOGFILE][0] == '/'
  {
    LogfileName();
    hide WellFormed;
    if LOGFILE in a.store {
      StoredGood(a, LOGFILE);
      if FixLogfile(a, package) != a {
        LogfileGood(package, a.store[LOGFILE]);
        PutKeepsWellFormed(a, LOGFILE, DATA + package + "/" + a.store[LOGFILE]);
      }
    }
  }

  lemma StoredGood(a: Args, key: string)
    requires WellFormed(a) && key in a.store
    ensures GoodValue(a.store[key])
  {
  }

  /** What the agent is given: the connection's own settings over the user's, and the log file fixed. */
  function AllArgs(user: Args, ddmActive: bool, address: string, package: string): Args
    requires LOGFILE in user.store ==> user.store[LOGFILE] != ""
  {
    LogfileName();
    AgentValues(user, ddmActive, address);
    AgentNames(user, ddmActive, address);
    FixLogfile(AgentArgs(user, ddmActive, address), package)
  }

  lemma AgentNames(user: Args, ddmActive: bool, address: string)
    ensures forall k :: k in AgentArgs(user, ddmActive, address).store <==>
              k in user.store || k in {SERVER, SUSPEND, DDM, TRANSPORT, ADDRESS}
  {
  }

  /**
   What the agent parses out of its options, whatever the user's were: the connection's own settings,
   the user's other ones, an absolute log file where the package is known, and the
   order that the agent needs unless the user's options name the address first.
   */
  lemma AgentParses(opts: string, ddmActive: bool, address: string, package: string)
    requires GoodValue(address) && (package == "" || Plain(package))
    ensures LOGFILE in Parse(opts).store ==> Parse(opts).store[LOGFILE] != ""
    ensures var user := Parse(opts);
            var agent := AllArgs(user, ddmActive, address, package);
            && Consistent(agent) && Parse(Join(agent)) == agent
            && SERVER in agent.store && agent.store[SERVER] == "y" && SUSPEND in agent.store && agent.store[SUSPEND] == "n"
            && (Before(agent.keys, TRANSPORT, ADDRESS) <==> !AddressFirst(user))
            && (LOGFILE in agent.store <==> LOGFILE in user.store)
            && (LOGFILE in agent.store && package != "" ==> agent.store[LOGFILE] != "" && agent.store[LOGFILE][0] == '/')
  {
    ParseWellFormed(opts);
    var user := Parse(opts);
    FixKeepsWellFormed(user, "");
    var agent := AgentArgs(user, ddmActive, address);
    AgentArgsWellFormed(user, ddmActive, address);
    AgentValues(user, ddmActive, address);
    AgentNames(user, ddmActive, address);
    AgentOrder(user, ddmActive, address);
    LogfileName();
    FixKeepsWellFormed(agent, package);
    FixKeepsNames(agent, package);
    hide AgentArgs, FixLogfile, WellFormed, GoodValue, Plain;
    JoinParses(FixLogfile(agent, package));
    WellFormedIsConsistent(FixLogfile(agent, package));
  }

  lemma FixKeepsNames(a: Args, package: string)
    requires LOGFILE in a.store ==> a.store[LOGFILE] != ""
    ensures forall k :: k in a.store <==> k in FixLogfile(a, package).store
    ensures forall k :: k in a.store && k != LOGFILE ==> FixLogfile(a, package).store[k] == a.store[k]
  {
  }

  lemma WellFormedIsConsistent(a: Args)
    requires WellFormed(a)
    ensures Consistent(a)
  {
  }

  method FixLogfileOf(parameters: JdwpArgs, package: string)
    requires LOGFILE in parameters.store ==> parameters.store[LOGFILE] != ""
    modifies parameters
    ensures parameters.Value() == FixLogfile(old(parameters.Value()), package)
  {
    if LOGFILE !in parameters.store {
      return;
    }
    var logfile := parameters.store[LOGFILE];
    if logfile[0] == '/' || package == "" {
      return;
    }
    parameters.PutArg(LOGFILE, DATA + package + "/" + logfile);
  }

  method MakeAgentArg(opts: string, ddmActive: bool, agentName: string, address: string, package: string)
    returns (arg: string)
    requires GoodValue(address) && (package == "" || Plain(package))
    ensures LOGFILE in Parse(opts).store ==> Parse(opts).store[LOGFILE] != ""
    ensures Consistent(AllArgs(Parse(opts), ddmActive, address, package))
    ensures arg == agentName + "=" + Join(AllArgs(Parse(opts), ddmActive, address, package))
  {
    hide Parse, Join, Plain, GoodValue, Put, FixLogfile;
    var parameters := new JdwpArgs(opts);
    parameters.PutArg(SERVER, "y");
    parameters.PutArg(SUSPEND, "n");
    parameters.PutArg(DDM, if ddmActive then "y" else "n");
    parameters.PutArg(TRANSPORT, "dt_fd_forward");
    parameters.PutArg(ADDRESS, address);
    AgentParses(opts, ddmActive, address, package);
    AgentValues(Parse(opts), ddmActive, address);
    AgentNames(Parse(opts), ddmActive, address);
    LogfileName();
    FixLogfileOf(parameters, package);
    var joined := parameters.JoinArgs();
    arg := agentName + "=" + joined;
  }
}
