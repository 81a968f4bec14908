/** The JavaScript wrapper (lib/pulse.js): option-string lookups over the
    binding's constant tables, the connection flag driven by state changes,
    and the play / stop / discard logic of the two stream classes. */
module PulseJs {
  import opened Js
  import Stm

  /** A constant table of the binding, as a JavaScript object whose own
      keys enumerate in insertion order. */
  datatype Entry<V> = Entry(key: string, val: V)
  type Table<V> = seq<Entry<V>>

  predicate DistinctKeys<V>(t: Table<V>) {
    forall i, j :: 0 <= i < j < |t| ==> t[i].key != t[j].key
  }

  predicate DistinctValues<V(==)>(t: Table<V>) {
    forall i, j :: 0 <= i < j < |t| ==> t[i].val != t[j].val
  }

  /** `table[k]`: the value stored under `k`, or undefined. */
  function Lookup<V>(t: Table<V>, k: string): (r: Option<V>)
    ensures r.Some? <==> exists j :: 0 <= j < |t| && t[j].key == k
    ensures r.Some? ==> exists j :: 0 <= j < |t| && t[j] == Entry(k, r.value)
  {
    if t == [] then None
    else if t[0].key == k then Some(t[0].val)
    else
      var r := Lookup(t[1..], k);
      assert forall j :: 1 <= j < |t| ==> t[j] == t[1..][j - 1];
      r
  }

  lemma {:induction false} LookupAt<V>(t: Table<V>, j: nat)
    requires DistinctKeys(t) && j < |t|
    ensures Lookup(t, t[j].key) == Some(t[j].val)
  {
    if j > 0 {
      assert t[1..][j - 1] == t[j];
      LookupAt(t[1..], j - 1);
    }
  }

  /** Context.flags (src/context.cc) */
  const CONTEXT_FLAGS: Table<bv32> :=
    [Entry("noflags", 0), Entry("noautospawn", 1), Entry("nofail", 2)]

  /** Context.state */
  const CONTEXT_STATES: Table<int> :=
    [Entry("unconnected", 0), Entry("connecting", 1), Entry("authorizing", 2),
     Entry("setting_name", 3), Entry("ready", 4), Entry("failed", 5), Entry("terminated", 6)]

  /** Stream.state */
  const STREAM_STATES: Table<int> :=
    [Entry("unconnected", 0), Entry("creating", 1), Entry("ready", 2),
     Entry("failed", 3), Entry("terminated", 4)]

  /** Stream.type */
  const STREAM_TYPES: Table<int> :=
    [Entry("playback", 1), Entry("record", 2), Entry("upload", 3)]

  /** Stream.format, in the binding's definition order. */
  const SAMPLE_FORMATS: Table<int> :=
    [Entry("U8", 0), Entry("S16LE", 3), Entry("S16BE", 4), Entry("F32LE", 5),
     Entry("F32BE", 6), Entry("ALAW", 1), Entry("ULAW", 2), Entry("S32LE", 7),
     Entry("S32BE", 8), Entry("S24LE", 9), Entry("S24BE", 10), Entry("S24_32LE", 11),
     Entry("S24_32BE", 12)]

  // ---------------------------------------------------------------------
  // Splitting on /[\s,.+|]/

  /** The characters ECMAScript's `\s` matches, plus `,` `.` `+` `|`. */
  const SEPARATORS: set<char> :=
    {' ', '\t', '\n', '\r', ',', '.', '+', '|',
     '\U{000B}', '\U{000C}', '\U{00A0}', '\U{1680}',
     '\U{2000}', '\U{2001}', '\U{2002}', '\U{2003}', '\U{2004}', '\U{2005}',
     '\U{2006}', '\U{2007}', '\U{2008}', '\U{2009}', '\U{200A}',
     '\U{2028}', '\U{2029}', '\U{202F}', '\U{205F}', '\U{3000}', '\U{FEFF}'}

  predicate IsSeparator(c: char) {
    c in SEPARATORS
  }

  predicate NoSeparator(s: string) {
    forall i :: 0 <= i < |s| ==> !IsSeparator(s[i])
  }

  function SeparatorCount(s: string): nat {
    if s == [] then 0 else (if IsSeparator(s[0]) then 1 else 0) + SeparatorCount(s[1..])
  }

  /** The separators of `s`, in order. */
  function Separators(s: string): string {
    if s == [] then [] else (if IsSeparator(s[0]) then [s[0]] else []) + Separators(s[1..])
  }

  /** `String.prototype.split` with the separator pattern, `cur` being the
      token read so far. Consecutive separators give empty tokens. */
  function SplitFrom(s: string, cur: string): (r: seq<string>)
    ensures |r| > 0
  {
    if s == [] then [cur]
    else if IsSeparator(s[0]) then [cur] + SplitFrom(s[1..], "")
    else SplitFrom(s[1..], cur + [s[0]])
  }

  /** `val.split(/[\s,.+|]/)`: never empty, and the empty string gives one
      empty token. */
  function Split(s: string): (r: seq<string>)
    ensures |r| > 0
    ensures s == [] ==> r == [""]
  {
    SplitFrom(s, "")
  }

  /** Tokens rejoined with the separators between them. */
  function Interleave(tokens: seq<string>, seps: string): string
    requires |tokens| == |seps| + 1
  {
    if seps == [] then tokens[0] else tokens[0] + [seps[0]] + Interleave(tokens[1..], seps[1..])
  }

  lemma {:induction false} SplitFromCount(s: string, cur: string)
    ensures |SplitFrom(s, cur)| == 1 + SeparatorCount(s)
    ensures |Separators(s)| == SeparatorCount(s)
  {
    if s != [] {
      if IsSeparator(s[0]) {
        SplitFromCount(s[1..], "");
      } else {
        SplitFromCount(s[1..], cur + [s[0]]);
      }
    }
  }

  /** One token more than there are separators. */
  lemma SplitCount(s: string)
    ensures |Split(s)| == 1 + SeparatorCount(s)
  {
    SplitFromCount(s, "");
  }

  lemma InterleaveCons(t: string, rest: seq<string>, c: char, seps: string)
    requires |rest| == |seps| + 1
    ensures Interleave([t] + rest, [c] + seps) == t + [c] + Interleave(rest, seps)
  {
    assert ([t] + rest)[1..] == rest;
    assert ([c] + seps)[1..] == seps;
  }

  lemma AppendHead(cur: string, s: string)
    requires s != []
    ensures cur + [s[0]] + s[1..] == cur + s
  {
    assert s == [s[0]] + s[1..];
  }

  /** The step of SplitFromRejoins at a separator: it closes the token `cur`. */
  lemma RejoinsAtSeparator(s: string, cur: string)
    requires s != [] && IsSeparator(s[0])
    requires |SplitFrom(s[1..], "")| == |Separators(s[1..])| + 1
    requires Interleave(SplitFrom(s[1..], ""), Separators(s[1..])) == "" + s[1..]
    ensures Interleave(SplitFrom(s, cur), Separators(s)) == cur + s
  {
    var rest := SplitFrom(s[1..], "");
    var seps := Separators(s[1..]);
    assert Interleave(rest, seps) == s[1..] by { assert "" + s[1..] == s[1..]; }
    InterleaveCons(cur, rest, s[0], seps);
    AppendHead(cur, s);
  }

  /** The step of SplitFromRejoins at any other character: it extends `cur`. */
  lemma RejoinsAtOther(s: string, cur: string)
    requires s != [] && !IsSeparator(s[0])
    requires |SplitFrom(s[1..], cur + [s[0]])| == |Separators(s[1..])| + 1
    requires Interleave(SplitFrom(s[1..], cur + [s[0]]), Separators(s[1..])) == cur + [s[0]] + s[1..]
    ensures Interleave(SplitFrom(s, cur), Separators(s)) == cur + s
  {
    assert Separators(s) == Separators(s[1..]) by { assert [] + Separators(s[1..]) == Separators(s[1..]); }
    AppendHead(cur, s);
  }

  lemma {:induction false} SplitFromRejoins(s: string, cur: string)
    ensures |SplitFrom(s, cur)| == |Separators(s)| + 1
    ensures Interleave(SplitFrom(s, cur), Separators(s)) == cur + s
  {
    SplitFromCount(s, cur);
    if s == [] {
      assert cur + s == cur;
    } else if IsSeparator(s[0]) {
      SplitFromRejoins(s[1..], "");
      RejoinsAtSeparator(s, cur);
    } else {
      SplitFromRejoins(s[1..], cur + [s[0]]);
      RejoinsAtOther(s, cur);
    }
  }

  /** Splitting loses nothing: rejoining the tokens with the separators
      gives the string back. */
  lemma SplitRejoins(s: string)
    ensures |Split(s)| == |Separators(s)| + 1
    ensures Interleave(Split(s), Separators(s)) == s
  {
    SplitFromRejoins(s, "");
  }

  lemma {:induction false} SplitFromTokensHaveNoSeparator(s: string, cur: string)
    requires NoSeparator(cur)
    ensures forall k :: 0 <= k < |SplitFrom(s, cur)| ==> NoSeparator(SplitFrom(s, cur)[k])
  {
    if s != [] {
      if IsSeparator(s[0]) {
        SplitFromTokensHaveNoSeparator(s[1..], "");
      } else {
        SplitFromTokensHaveNoSeparator(s[1..], cur + [s[0]]);
      }
    }
  }

  /** No token contains a separator. */
  lemma SplitTokensHaveNoSeparator(s: string)
    ensures forall k :: 0 <= k < |Split(s)| ==> NoSeparator(Split(s)[k])
  {
    SplitFromTokensHaveNoSeparator(s, "");
  }

  lemma {:induction false} SplitFromWithoutSeparator(s: string, cur: string)
    requires NoSeparator(s)
    ensures SplitFrom(s, cur) == [cur + s]
  {
    if s != [] {
      assert NoSeparator(s[1..]) by {
        assert forall i :: 0 <= i < |s[1..]| ==> s[1..][i] == s[i + 1];
      }
      SplitFromWithoutSeparator(s[1..], cur + [s[0]]);
      assert cur + [s[0]] + s[1..] == cur + s;
    } else {
      assert cur + s == cur;
    }
  }

  /** A string without separators is its own single token. */
  lemma SplitWithoutSeparator(s: string)
    requires NoSeparator(s)
    ensures Split(s) == [s]
  {
    SplitFromWithoutSeparator(s, "");
    assert "" + s == s;
  }

  // ---------------------------------------------------------------------
  // str2bit

  /** An undefined accumulator takes part in `|` as 0. */
  function Bits(bit: Option<bv32>): bv32 {
    if bit.Some? then bit.value else 0
  }

  /** `bit | v` */
  function BitOr(bit: Option<bv32>, v: bv32): bv32 {
    Bits(bit) | v
  }

  /** Every bit of `v` is set in `r`. */
  predicate Has(r: bv32, v: bv32) {
    r & v == v
  }

  /** `|` keeps every bit of its right operand. */
  lemma OrHasRight(a: bv32, v: bv32)
    ensures Has(a | v, v)
  {
  }

  /** `|` keeps every bit its left operand already had. */
  lemma OrKeeps(a: bv32, b: bv32, v: bv32)
    requires Has(a, v)
    ensures Has(a | b, v)
  {
  }

  /** The loop of `str2bit` over the first `|entries|` keys of the table. */
  function Accumulate(entries: Table<bv32>, tokens: seq<string>, init: Option<bv32>): (r: Option<bv32>)
    ensures r.None? ==> init.None?
    decreases |entries|
  {
    if entries == [] then init
    else
      var prev := Accumulate(entries[..|entries| - 1], tokens, init);
      var e := entries[|entries| - 1];
      if e.key in tokens then Some(BitOr(prev, e.val)) else prev
  }

  /** What `str2bit(val, table, def)` evaluates to, as a 32-bit pattern;
      `def` None is JavaScript's undefined, which names the key "undefined". */
  function Str2BitOf(val: Value, table: Table<bv32>, def: Option<string>): Option<bv32>
  {
    var init := Lookup(table, if def.Some? then def.value else "undefined");
    if val.Str? then Accumulate(table, Split(val.s), init) else init
  }

  method Str2Bit(val: Value, table: Table<bv32>, def: Option<string>) returns (bit: Option<bv32>)
    ensures bit == Str2BitOf(val, table, def)
  {
    bit := Lookup(table, if def.Some? then def.value else "undefined");
    if val.Str? {
      var tokens := Split(val.s);
      ghost var init := bit;
      for i := 0 to |table|
        invariant bit == Accumulate(table[..i], tokens, init)
      {
        assert table[..i + 1][..i] == table[..i];
        if table[i].key in tokens {
          bit := Some(BitOr(bit, table[i].val));
        }
      }
      assert table[..|table|] == table;
    }
  }

  /** One step of `Accumulate` keeps a bit pattern the accumulator already
      holds, and a hit adds the bits of its own value. */
  lemma StepHas(prev: Option<bv32>, add: bv32, v: bv32, hit: bool)
    requires (prev.Some? && Has(prev.value, v)) || (hit && add == v)
    ensures var r := if hit then Some(BitOr(prev, add)) else prev; r.Some? && Has(r.value, v)
  {
    if hit && add == v {
      OrHasRight(Bits(prev), add);
    } else if hit {
      OrKeeps(prev.value, add, v);
    }
  }

  lemma {:induction false} AccumulateIncludes(entries: Table<bv32>, tokens: seq<string>, init: Option<bv32>, i: nat)
    requires i < |entries| && entries[i].key in tokens
    ensures Accumulate(entries, tokens, init).Some?
    ensures Has(Accumulate(entries, tokens, init).value, entries[i].val)
    decreases |entries|
  {
    var n := |entries| - 1;
    var prev := Accumulate(entries[..n], tokens, init);
    var hit := entries[n].key in tokens;
    assert Accumulate(entries, tokens, init) == if hit then Some(BitOr(prev, entries[n].val)) else prev;
    if i < n {
      assert entries[..n][i] == entries[i];
      AccumulateIncludes(entries[..n], tokens, init, i);
    }
    StepHas(prev, entries[n].val, entries[i].val, hit);
  }

  lemma {:induction false} AccumulateKeepsInit(entries: Table<bv32>, tokens: seq<string>, init: Option<bv32>)
    requires init.Some?
    ensures Accumulate(entries, tokens, init).Some?
    ensures Has(Accumulate(entries, tokens, init).value, init.value)
    decreases |entries|
  {
    if entries != [] {
      var n := |entries| - 1;
      AccumulateKeepsInit(entries[..n], tokens, init);
      if entries[n].key in tokens {
        OrKeeps(Bits(Accumulate(entries[..n], tokens, init)), entries[n].val, init.value);
      }
    }
  }

  lemma {:induction false} AccumulateNoMatch(entries: Table<bv32>, tokens: seq<string>, init: Option<bv32>)
    requires forall i :: 0 <= i < |entries| ==> entries[i].key !in tokens
    ensures Accumulate(entries, tokens, init) == init
    decreases |entries|
  {
    if entries != [] {
      var n := |entries| - 1;
      assert forall i :: 0 <= i < n ==> entries[..n][i] == entries[i];
      AccumulateNoMatch(entries[..n], tokens, init);
    }
  }

  lemma {:induction false} AccumulateSameMembership(entries: Table<bv32>, tokens: seq<string>, tokens': seq<string>, init: Option<bv32>)
    requires forall i :: 0 <= i < |entries| ==> (entries[i].key in tokens <==> entries[i].key in tokens')
    ensures Accumulate(entries, tokens, init) == Accumulate(entries, tokens', init)
    decreases |entries|
  {
    if entries != [] {
      var n := |entries| - 1;
      assert forall i :: 0 <= i < n ==> entries[..n][i] == entries[i];
      AccumulateSameMembership(entries[..n], tokens, tokens', init);
    }
  }

  /** The result carries the bits of every key that occurs as a token. */
  lemma Str2BitIncludes(s: string, table: Table<bv32>, def: Option<string>, i: nat)
    requires i < |table| && table[i].key in Split(s)
    ensures var r := Str2BitOf(Str(s), table, def);
            r.Some? && Has(r.value, table[i].val)
  {
    AccumulateIncludes(table, Split(s), Lookup(table, if def.Some? then def.value else "undefined"), i);
  }

  /** It also keeps the default's bits. */
  lemma Str2BitKeepsDefault(s: string, table: Table<bv32>, def: string)
    requires Lookup(table, def).Some?
    ensures var r := Str2BitOf(Str(s), table, Some(def));
            r.Some? && Has(r.value, Lookup(table, def).value)
  {
    AccumulateKeepsInit(table, Split(s), Lookup(table, def));
  }

  /** With no key among the tokens, and for any non-string, the result is `table[def]`. */
  lemma Str2BitDefault(val: Value, table: Table<bv32>, def: Option<string>)
    requires val.Str? ==> forall i :: 0 <= i < |table| ==> table[i].key !in Split(val.s)
    ensures Str2BitOf(val, table, def) == Lookup(table, if def.Some? then def.value else "undefined")
  {
    if val.Str? {
      AccumulateNoMatch(table, Split(val.s), Lookup(table, if def.Some? then def.value else "undefined"));
    }
  }

  /** Token order and repetition do not matter: only which keys occur does. */
  lemma Str2BitDependsOnKeysPresent(a: string, b: string, table: Table<bv32>, def: Option<string>)
    requires forall i :: 0 <= i < |table| ==> (table[i].key in Split(a) <==> table[i].key in Split(b))
    ensures Str2BitOf(Str(a), table, def) == Str2BitOf(Str(b), table, def)
  {
    AccumulateSameMembership(table, Split(a), Split(b), Lookup(table, if def.Some? then def.value else "undefined"));
  }

  // ---------------------------------------------------------------------
  // str2num

  function LowerChar(c: char): char {
    if 'A' <= c <= 'Z' then (c as int + 32) as char else c
  }

  function UpperChar(c: char): char {
    if 'a' <= c <= 'z' then (c as int - 32) as char else c
  }

  /** `toLowerCase` / `toUpperCase` on the ASCII letters. */
  function Lower(s: string): (r: string)
    ensures |r| == |s| && forall i :: 0 <= i < |s| ==> r[i] == LowerChar(s[i])
    ensures forall i :: 0 <= i < |r| ==> !('A' <= r[i] <= 'Z')
    ensures forall i :: 0 <= i < |s| && !('A' <= s[i] <= 'Z') ==> r[i] == s[i]
  {
    seq(|s|, i requires 0 <= i < |s| => LowerChar(s[i]))
  }

  function Upper(s: string): (r: string)
    ensures |r| == |s| && forall i :: 0 <= i < |s| ==> r[i] == UpperChar(s[i])
    ensures forall i :: 0 <= i < |r| ==> !('a' <= r[i] <= 'z')
    ensures forall i :: 0 <= i < |s| && !('a' <= s[i] <= 'z') ==> r[i] == s[i]
  {
    seq(|s|, i requires 0 <= i < |s| => UpperChar(s[i]))
  }

  lemma UpperOfLower(s: string)
    ensures Upper(Lower(s)) == Upper(s)
  {
    assert forall i :: 0 <= i < |s| ==> Upper(Lower(s))[i] == Upper(s)[i];
  }

  /** `str2num(val, table, def)`: the exact key, else the lower-cased key,
      else the upper-cased lower-cased key, else `def`. */
  function Str2Num(val: Value, table: Table<int>, def: Option<int>): (r: Option<int>)
    ensures !val.Str? ==> r == def
    ensures val.Str? && Lookup(table, val.s).Some? ==> r == Lookup(table, val.s)
    ensures val.Str? && Lookup(table, val.s).None? && Lookup(table, Lower(val.s)).Some? ==>
      r == Lookup(table, Lower(val.s))
    ensures val.Str? && Lookup(table, val.s).None? && Lookup(table, Lower(val.s)).None? ==>
      r == if Lookup(table, Upper(val.s)).Some? then Lookup(table, Upper(val.s)) else def
    ensures val.Str? && (forall j :: 0 <= j < |table| ==>
                           table[j].key != val.s && table[j].key != Lower(val.s) && table[j].key != Upper(val.s))
            ==> r == def
    ensures r == def || exists j :: 0 <= j < |table| && r == Some(table[j].val)
  {
    if !val.Str? then def
    else
      UpperOfLower(val.s);
      if Lookup(table, val.s).Some? then Lookup(table, val.s)
    else if Lookup(table, Lower(val.s)).Some? then Lookup(table, Lower(val.s))
    else if Lookup(table, Upper(Lower(val.s))).Some? then Lookup(table, Upper(Lower(val.s)))
    else def
  }

  predicate UpperKeys<V>(t: Table<V>) {
    forall i :: 0 <= i < |t| ==> Upper(t[i].key) == t[i].key
  }

  predicate LowerKeys<V>(t: Table<V>) {
    forall i :: 0 <= i < |t| ==> Lower(t[i].key) == t[i].key
  }

  /** In a table of upper-case keys, any spelling of a key that upper-cases
      to it finds that key's value. */
  lemma Str2NumIgnoresCaseUpper(t: Table<int>, s: string, i: nat, def: Option<int>)
    requires DistinctKeys(t) && UpperKeys(t) && i < |t| && Upper(s) == t[i].key
    ensures Str2Num(Str(s), t, def) == Some(t[i].val)
  {
    LookupAt(t, i);
    UpperOfLower(s);
    if Lookup(t, s).Some? {
      var j :| 0 <= j < |t| && t[j].key == s;
      assert t[j].key == t[i].key;
    } else if Lookup(t, Lower(s)).Some? {
      var j :| 0 <= j < |t| && t[j].key == Lower(s);
      assert Upper(t[j].key) == t[i].key;
    }
  }

  /** In a table of lower-case keys, any spelling that lower-cases to a key
      finds that key's value. */
  lemma Str2NumIgnoresCaseLower(t: Table<int>, s: string, i: nat, def: Option<int>)
    requires DistinctKeys(t) && LowerKeys(t) && i < |t| && Lower(s) == t[i].key
    ensures Str2Num(Str(s), t, def) == Some(t[i].val)
  {
    LookupAt(t, i);
    if Lookup(t, s).Some? {
      var j :| 0 <= j < |t| && t[j].key == s;
      assert Lower(t[j].key) == t[i].key;
    }
  }

  /** A string without lower-case ASCII letters is its own upper-casing. */
  lemma UpperOfNoLowercase(k: string)
    requires forall n :: 0 <= n < |k| ==> !('a' <= k[n] <= 'z')
    ensures Upper(k) == k
  {
  }

  /** Stream.format has upper-case keys. */
  lemma SampleFormatsUpper()
    ensures UpperKeys(SAMPLE_FORMATS)
  {
    forall i | 0 <= i < |SAMPLE_FORMATS|
      ensures Upper(SAMPLE_FORMATS[i].key) == SAMPLE_FORMATS[i].key
    {
      UpperOfNoLowercase(SAMPLE_FORMATS[i].key);
    }
  }

  /** The position of a format name in Stream.format, read off its length
      and a few of its characters. */
  function FormatPosition(k: string): int
    requires |k| >= 4 || |k| == 2
  {
    if |k| == 2 then 0
    else if |k| == 4 then (if k[0] == 'A' then 5 else 6)
    else if |k| > 5 then (if k[|k| - 2] == 'L' then 11 else 12)
    else
      var le := k[3] == 'L';
      if k[0] == 'F' then (if le then 3 else 4)
      else if k[1] == '1' then (if le then 1 else 2)
      else if k[1] == '3' then (if le then 7 else 8)
      else (if le then 9 else 10)
  }

  /** Keys are distinct when some function of the key gives back its position. */
  lemma DistinctByPosition(t: Table<int>)
    requires forall i :: 0 <= i < |t| ==> (|t[i].key| >= 4 || |t[i].key| == 2) && FormatPosition(t[i].key) == i
    ensures DistinctKeys(t)
  {
    forall i, j | 0 <= i < j < |t|
      ensures t[i].key != t[j].key
    {
      assert FormatPosition(t[i].key) != FormatPosition(t[j].key);
    }
  }

  /** Stream.format has distinct keys. */
  lemma SampleFormatsDistinct()
    ensures DistinctKeys(SAMPLE_FORMATS)
  {
    forall i | 0 <= i < |SAMPLE_FORMATS|
      ensures (|SAMPLE_FORMATS[i].key| >= 4 || |SAMPLE_FORMATS[i].key| == 2) && FormatPosition(SAMPLE_FORMATS[i].key) == i
    {
    }
    DistinctByPosition(SAMPLE_FORMATS);
  }

  lemma SampleFormatKeys()
    ensures DistinctKeys(SAMPLE_FORMATS) && UpperKeys(SAMPLE_FORMATS)
  {
    SampleFormatsUpper();
    SampleFormatsDistinct();
  }

  /** Every format name starts with one of U, S, F, A. */
  lemma FormatInitials()
    ensures forall j :: 0 <= j < |SAMPLE_FORMATS| ==> |SAMPLE_FORMATS[j].key| > 0 && SAMPLE_FORMATS[j].key[0] in "USFA"
  {
  }

  /** A name whose initial, in any spelling, begins no key of the table
      selects `def`. */
  lemma UnknownInitial(t: Table<int>, initials: string, s: string, def: Option<int>)
    requires forall j :: 0 <= j < |t| ==> |t[j].key| > 0 && t[j].key[0] in initials
    requires |s| > 0 && s[0] !in initials && LowerChar(s[0]) !in initials && UpperChar(s[0]) !in initials
    ensures Str2Num(Str(s), t, def) == def
  {
    forall j | 0 <= j < |t|
      ensures t[j].key != s && t[j].key != Lower(s) && t[j].key != Upper(s)
    {
      assert Lower(s)[0] == LowerChar(s[0]) && Upper(s)[0] == UpperChar(s[0]);
    }
  }

  /** A name whose initial, in either case, starts no format name selects
      nothing, so `createStream` hands the native side undefined and S16LE
      is used: `format: "bogus"` is one such name. */
  lemma UnknownFormatName(s: string)
    requires |s| > 0 && UpperChar(s[0]) !in "USFA"
    ensures Str2Num(Str(s), SAMPLE_FORMATS, None) == None
  {
    FormatInitials();
    UnknownInitial(SAMPLE_FORMATS, "USFA", s, None);
  }

  /** `format: "bogus"` selects no format. */
  lemma BogusFormatName()
    ensures Str2Num(Str("bogus"), SAMPLE_FORMATS, None) == None
  {
    UnknownFormatName("bogus");
  }

  /** The lower-case spelling of a format name selects it. */
  lemma SampleFormatByName()
    ensures Str2Num(Str("s16le"), SAMPLE_FORMATS, None) == Some(Stm.PA_SAMPLE_S16LE)
  {
    SampleFormatKeys();
    assert Upper("s16le") == "S16LE";
    Str2NumIgnoresCaseUpper(SAMPLE_FORMATS, "s16le", 1, None);
  }

  // ---------------------------------------------------------------------
  // num2str

  /** `table[key] === val`: the table holds numbers. */
  predicate Matches(e: Entry<int>, val: Value) {
    val.Num? && val.n == e.val
  }

  /** The first key, in enumeration order, whose value is `=== val`. */
  function FirstKey(t: Table<int>, val: Value): (r: Option<string>)
    ensures r.Some? <==> exists j :: 0 <= j < |t| && Matches(t[j], val)
  {
    if t == [] then None
    else if Matches(t[0], val) then Some(t[0].key)
    else
      assert forall j :: 1 <= j < |t| ==> t[j] == t[1..][j - 1];
      FirstKey(t[1..], val)
  }

  lemma {:induction false} FirstKeyAt(t: Table<int>, val: Value, i: nat)
    requires i < |t| && Matches(t[i], val)
    requires forall j :: 0 <= j < i ==> !Matches(t[j], val)
    ensures FirstKey(t, val) == Some(t[i].key)
  {
    if i > 0 {
      assert t[1..][i - 1] == t[i];
      assert forall j :: 0 <= j < i - 1 ==> t[1..][j] == t[j + 1];
      FirstKeyAt(t[1..], val, i - 1);
    }
  }

  method Num2Str(val: Value, table: Table<int>, def: Option<string>) returns (r: Option<string>)
    ensures r == if FirstKey(table, val).Some? then FirstKey(table, val) else def
  {
    for i := 0 to |table|
      invariant forall j :: 0 <= j < i ==> !Matches(table[j], val)
    {
      if Matches(table[i], val) {
        FirstKeyAt(table, val, i);
        return Some(table[i].key);
      }
    }
    return def;
  }

  /** With distinct values, a table value names its own key. */
  lemma Num2StrOfValue(t: Table<int>, i: nat)
    requires DistinctValues(t) && i < |t|
    ensures FirstKey(t, Num(t[i].val)) == Some(t[i].key)
  {
    FirstKeyAt(t, Num(t[i].val), i);
  }

  /** The position of the first matching entry. */
  lemma {:induction false} FirstIndex(t: Table<int>, val: Value) returns (i: nat)
    requires exists j :: 0 <= j < |t| && Matches(t[j], val)
    ensures i < |t| && Matches(t[i], val) && forall j :: 0 <= j < i ==> !Matches(t[j], val)
  {
    if Matches(t[0], val) {
      i := 0;
    } else {
      var k :| 0 <= k < |t| && Matches(t[k], val);
      assert t[1..][k - 1] == t[k];
      var i' := FirstIndex(t[1..], val);
      i := i' + 1;
      assert forall j :: 1 <= j < i ==> t[j] == t[1..][j - 1];
      assert t[i] == t[1..][i'];
    }
  }

  /** And the key found always maps back to the number: str2num undoes num2str. */
  lemma Str2NumOfNum2Str(t: Table<int>, val: Value)
    requires DistinctKeys(t) && FirstKey(t, val).Some?
    ensures Str2Num(Str(FirstKey(t, val).value), t, None) == Some(val.n)
  {
    var i := FirstIndex(t, val);
    FirstKeyAt(t, val, i);
    LookupAt(t, i);
  }

  /** The name the Context state handler emits for PA_CONTEXT_READY. */
  lemma ContextReadyName()
    ensures FirstKey(CONTEXT_STATES, Num(4)) == Some("ready")
  {
    FirstKeyAt(CONTEXT_STATES, Num(4), 4);
  }

  /** The name the stream state handler emits for PA_STREAM_TERMINATED. */
  lemma StreamTerminatedName()
    ensures FirstKey(STREAM_STATES, Num(4)) == Some("terminated")
  {
    FirstKeyAt(STREAM_STATES, Num(4), 4);
  }

  /** The name infoListWrap gives the default sample format. */
  lemma DefaultFormatName()
    ensures FirstKey(SAMPLE_FORMATS, Num(Stm.PA_SAMPLE_S16LE)) == Some("S16LE")
  {
    FirstKeyAt(SAMPLE_FORMATS, Num(3), 1);
  }

  // ---------------------------------------------------------------------
  // infoListWrap

  /** A record with a `format` field gets the format's name there (undefined
      when the number names no format); other records are left alone. */
  function WrapRecord(v: Value, formats: Table<int>): (w: Value)
    requires v.Obj?
    ensures w.Obj? && w.fields.Keys == v.fields.Keys
    ensures forall k :: k in v.fields && k != "format" ==> w.fields[k] == v.fields[k]
    ensures "format" in v.fields ==>
      w.fields["format"] == match FirstKey(formats, v.fields["format"])
                            case Some(name) => Str(name)
                            case None => Undefined
    ensures "format" !in v.fields ==> w == v
  {
    if "format" in v.fields then
      var name := FirstKey(formats, v.fields["format"]);
      Obj(v.fields["format" := if name.Some? then Str(name.value) else Undefined])
    else v
  }

  /** The completion `infoListWrap` hands the native `info`: maps every
      record in place; `formats` is Stream.format (SAMPLE_FORMATS). */
  method WrapFormats(list: array<Value>, formats: Table<int>)
    requires forall i :: 0 <= i < list.Length ==> list[i].Obj?
    modifies list
    ensures forall i :: 0 <= i < list.Length ==> old(list[i]).Obj? && list[i] == WrapRecord(old(list[i]), formats)
  {
    ghost var original := list[..];
    for i := 0 to list.Length
      invariant forall j :: 0 <= j < i ==> original[j].Obj? && list[j] == WrapRecord(original[j], formats)
      invariant forall j :: i <= j < list.Length ==> list[j] == original[j]
    {
      var rec := list[i];
      assert rec == original[i] && rec.Obj?;
      if "format" in rec.fields {
        var name := Num2Str(rec.fields["format"], formats, None);
        var wrapped := Obj(rec.fields["format" := if name.Some? then Str(name.value) else Undefined]);
        assert wrapped == WrapRecord(rec, formats);
        list[i] := wrapped;
      } else {
        assert rec == WrapRecord(rec, formats);
      }
    }
  }

  // ---------------------------------------------------------------------
  // State handlers and the `_connected` flag

  datatype Event =
    | StateEvent(name: Option<string>)
    | ConnectionEvent
    | ErrorEvent(error: Value)
    | CloseEvent
    | PlayEvent
    | StopEvent

  /** Whether the latest connection or close event in `es` was a connection. */
  function ConnectedAfter(es: seq<Event>): bool {
    if es == [] then false
    else if es[|es| - 1].ConnectionEvent? then true
    else if es[|es| - 1].CloseEvent? then false
    else ConnectedAfter(es[..|es| - 1])
  }

  lemma AppendEvent(es: seq<Event>, e: Event)
    ensures ConnectedAfter(es + [e]) ==
      if e.ConnectionEvent? then true else if e.CloseEvent? then false else ConnectedAfter(es)
  {
    assert (es + [e])[..|es + [e]| - 1] == es;
  }

  /** The EventEmitter side of a wrapper object and its `_connected` flag,
      driven by the handler both Context and createStream install. */
  class Emitter {
    const states: Table<int>
    var connected: bool
    var events: seq<Event>

    /** `_connected` is true exactly when the latest of ready and
        terminated was ready. */
    ghost predicate Valid()
      reads this
    {
      connected == ConnectedAfter(events)
    }

    constructor (states: Table<int>)
      ensures Valid() && this.states == states && !connected && events == []
    {
      this.states := states;
      connected := false;
      events := [];
    }

    /** The state handler: emit `state` with the state's name first; then
        ready connects, terminated closes, failed emits an error built from
        the error's message. Reading the message of undefined or null
        throws, which is what `threw` reports. */
    method OnState(state: int, error: Value) returns (threw: bool)
      requires Valid()
      modifies this`connected, this`events
      ensures Valid()
      ensures |events| > |old(events)| && events[..|old(events)| + 1] == old(events) + [StateEvent(FirstKey(states, Num(state)))]
      ensures var ready := Lookup(states, "ready");
              var failed := Lookup(states, "failed");
              var terminated := Lookup(states, "terminated");
              var tail := events[|old(events)| + 1..];
              if ready == Some(state) then
                && connected && !threw && tail == [ConnectionEvent]
              else if failed == Some(state) then
                && connected == old(connected)
                && threw == (error.Undefined? || error.Null?)
                && tail == if threw then [] else [ErrorEvent(error)]
              else if terminated == Some(state) then
                && !connected && !threw && tail == [CloseEvent]
              else
                && connected == old(connected) && !threw && tail == []
    {
      var name := Num2Str(Num(state), states, None);
      AppendEvent(events, StateEvent(name));
      events := events + [StateEvent(name)];
      ghost var mark := events;
      threw := false;
      if Lookup(states, "ready") == Some(state) {
        connected := true;
        AppendEvent(events, ConnectionEvent);
        events := events + [ConnectionEvent];
      } else if Lookup(states, "failed") == Some(state) {
        if error.Undefined? || error.Null? {
          threw := true;
        } else {
          AppendEvent(events, ErrorEvent(error));
          events := events + [ErrorEvent(error)];
        }
      } else if Lookup(states, "terminated") == Some(state) {
        connected := false;
        AppendEvent(events, CloseEvent);
        events := events + [CloseEvent];
      }
      assert events[..|mark|] == mark;
    }

    method Emit(e: Event)
      requires Valid() && !e.ConnectionEvent? && !e.CloseEvent?
      modifies this`events
      ensures Valid() && events == old(events) + [e]
    {
      AppendEvent(events, e);
      events := events + [e];
    }
  }

  /** `connect` of the Context constructor: flags from the option string,
      defaulting to "noflags" when there is none. */
  lemma ContextConnectFlags()
    ensures Str2BitOf(Undefined, CONTEXT_FLAGS, Some("noflags")) == Some(0)
  {
    LookupAt(CONTEXT_FLAGS, 0);
  }

  // ---------------------------------------------------------------------
  // PlaybackStream

  class PlaybackStream {
    const em: Emitter
    const native: Stm.Stream
    var playing: bool
    var stopped: bool
    /** `_writableState.discard` */
    var discard: int
    /** the calls of `done`, each with its error if any */
    var completions: seq<Option<Value>>

    ghost predicate Valid()
      reads this, em, native, native.ctx
    {
      && em.Valid() && native.Valid() && native.native
      && stopped == !playing && discard >= 0
    }

    /** The native stream is exactly as it was: no request, and the same
        drain listener and held buffer. */
    twostate predicate NativeUntouched()
      reads native
    {
      && native.requests == old(native.requests)
      && native.drainCallback == old(native.drainCallback)
      && native.writeBuffer == old(native.writeBuffer)
    }

    /** The constructor: createStream ends with `play()`, then the discard
        counter starts at 0. */
    constructor (em: Emitter, native: Stm.Stream)
      requires em.Valid() && native.Valid() && native.native
      modifies em`events
      ensures Valid() && this.em == em && this.native == native
      ensures playing && discard == 0 && completions == []
      ensures em.events == old(em.events) + [PlayEvent] && em.connected == old(em.connected)
    {
      this.em := em;
      this.native := native;
      playing := true;
      stopped := false;
      discard := 0;
      completions := [];
      new;
      em.Emit(PlayEvent);
    }

    /** `_write(chunk, encoding, done)`. While the counter is positive the
        chunk is discarded. Otherwise `rejection` is how waiting for the
        connection ends when not yet connected (None: the connection event,
        Some(e): an error event with `e`). */
    method Write(chunk: seq<bv8>, done: Value, rejection: Option<Value>)
      requires Valid() && IsFunction(done)
      modifies this`discard, this`completions, native`requests, native`drainCallback, native`writeBuffer
      ensures Valid()
      ensures old(discard) > 0 ==>
        && discard == old(discard) - 1 && completions == old(completions) + [None]
        && NativeUntouched()
      ensures old(discard) == 0 ==> discard == 0
      ensures old(discard) == 0 && !em.connected && rejection.Some? ==>
        && completions == old(completions) + [rejection]
        && NativeUntouched()
      ensures old(discard) == 0 && (em.connected || rejection.None?) && !playing ==>
        && completions == old(completions) + [None]
        && NativeUntouched()
      ensures old(discard) == 0 && (em.connected || rejection.None?) && playing ==>
        && completions == old(completions)
        && native.requests == old(native.requests) + Stm.WriteRequests(old(native.writeBuffer).Some?, Buf(chunk))
        && native.drainCallback == Some(done)
        && native.writeBuffer == Some(chunk)
    {
      if discard > 0 {
        discard := discard - 1;
        completions := completions + [None];
        return;
      }
      if !em.connected && rejection.Some? {
        completions := completions + [rejection];
        return;
      }
      if playing {
        native.Write(Buf(chunk), done);
      } else {
        completions := completions + [None];
      }
    }

    /** `discard()`: skip the chunks Node has queued, and flush and drain the
        native stream when connected. */
    method Discard(bufferedRequestCount: nat)
      requires Valid()
      modifies this`discard, native`requests, native`drainCallback, native`writeBuffer
      ensures Valid() && discard == bufferedRequestCount
      ensures em.connected ==> native.requests == old(native.requests) + Stm.WriteRequests(old(native.writeBuffer).Some?, Null)
      ensures native.drainCallback == old(native.drainCallback) && native.writeBuffer == old(native.writeBuffer)
      ensures !em.connected ==> NativeUntouched()
    {
      discard := bufferedRequestCount;
      if em.connected {
        native.Write(Null, Null);
      }
    }

    /** `stop()`: discard first, then stop and emit `stop`. */
    method Stop(bufferedRequestCount: nat)
      requires Valid()
      modifies this`discard, this`playing, this`stopped, native`requests, native`drainCallback, native`writeBuffer, em`events
      ensures Valid()
      ensures !playing && stopped && discard == bufferedRequestCount
      ensures em.events == old(em.events) + [StopEvent]
      ensures em.connected ==> native.requests == old(native.requests) + Stm.WriteRequests(old(native.writeBuffer).Some?, Null)
      ensures native.drainCallback == old(native.drainCallback) && native.writeBuffer == old(native.writeBuffer)
      ensures !em.connected ==> NativeUntouched()
    {
      Discard(bufferedRequestCount);
      playing := false;
      stopped := true;
      em.Emit(StopEvent);
    }

    /** `play()` */
    method Play()
      requires Valid()
      modifies this`playing, this`stopped, em`events
      ensures Valid() && playing && !stopped
      ensures em.events == old(em.events) + [PlayEvent]
    {
      playing := true;
      stopped := false;
      em.Emit(PlayEvent);
    }
  }

  // ---------------------------------------------------------------------
  // RecordStream

  class RecordStream {
    const em: Emitter
    const native: Stm.Stream
    /** `this._read_cb` */
    const readCb: Value
    var playing: bool
    var stopped: bool

    /** Playing exactly while the native stream has the read listener
        installed and is uncorked. */
    ghost predicate Valid()
      reads this, em, native, native.ctx
    {
      && em.Valid() && native.Valid() && native.native && IsFunction(readCb)
      && stopped == !playing
      && (playing <==> native.readCallback == Some(readCb))
      && (playing <==> !Stm.Corked(native.requests))
    }

    constructor (em: Emitter, native: Stm.Stream, readCb: Value)
      requires em.Valid() && native.Valid() && native.native && IsFunction(readCb)
      modifies em`events, native`requests, native`readCallback
      ensures Valid() && this.em == em && this.native == native && playing
      ensures native.readCallback == Some(readCb)
      ensures native.requests == old(native.requests) + [Stm.StreamDrop, Stm.SetReadCallback(true), Stm.StreamCork(false)]
      ensures em.events == old(em.events) + [PlayEvent]
    {
      this.em := em;
      this.native := native;
      this.readCb := readCb;
      playing := true;
      stopped := false;
      new;
      native.Read(readCb);
      em.Emit(PlayEvent);
    }

    /** `stop()`: unregister reading, then emit `stop`. */
    method Stop()
      requires Valid()
      modifies this`playing, this`stopped, native`requests, native`readCallback, em`events
      ensures Valid() && !playing && stopped && native.readCallback == None
      ensures native.requests == old(native.requests) + [Stm.StreamCork(true), Stm.StreamDrop, Stm.SetReadCallback(false)]
      ensures em.events == old(em.events) + [StopEvent]
    {
      native.Read(Null);
      playing := false;
      stopped := true;
      em.Emit(StopEvent);
    }

    /** `play()`: register reading, then emit `play`. */
    method Play()
      requires Valid()
      modifies this`playing, this`stopped, native`requests, native`readCallback, em`events
      ensures Valid() && playing && !stopped && native.readCallback == Some(readCb)
      ensures native.requests == old(native.requests) + [Stm.StreamDrop, Stm.SetReadCallback(true), Stm.StreamCork(false)]
      ensures em.events == old(em.events) + [PlayEvent]
    {
      native.Read(readCb);
      playing := true;
      stopped := false;
      em.Emit(PlayEvent);
    }
  }
}
