/** The connection string and the environment handed to pg_dump (internal/backup/dump.go). */
module Conninfo {
  import opened Wrappers

  /** Go strings are bytes; the quoting loop and libpq both work on bytes. */
  newtype Byte = b: int | 0 <= b < 0x100
  type Bytes = seq<Byte>

  const NUL: Byte := 0
  const QUOTE: Byte := '\'' as int as Byte
  const BACKSLASH: Byte := '\\' as int as Byte
  const EQUALS: Byte := '=' as int as Byte
  const DBNAME: Bytes :=
    ['d' as int as Byte, 'b' as int as Byte, 'n' as int as Byte,
     'a' as int as Byte, 'm' as int as Byte, 'e' as int as Byte]

  function QuotedByte(b: Byte): Bytes {
    if b == BACKSLASH || b == QUOTE then [BACKSLASH, b] else [b]
  }

  /** The name with a backslash before every quote and backslash. */
  function Quoted(name: Bytes): Bytes {
    if name == [] then []
    else Quoted(name[..|name| - 1]) + QuotedByte(name[|name| - 1])
  }

  function DatabaseName(name: Bytes): Bytes {
    DBNAME + [EQUALS, QUOTE] + Quoted(name) + [QUOTE]
  }

  method DatabaseNameConninfo(name: Bytes) returns (conninfo: Bytes)
    ensures conninfo == DatabaseName(name)
  {
    conninfo := DBNAME + [EQUALS, QUOTE];
    for i := 0 to |name|
      invariant conninfo == DBNAME + [EQUALS, QUOTE] + Quoted(name[..i])
    {
      assert name[..i + 1][..i] == name[..i];
      if name[i] == BACKSLASH || name[i] == QUOTE {
        conninfo := conninfo + [BACKSLASH];
      }
      conninfo := conninfo + [name[i]];
      assert conninfo == DBNAME + [EQUALS, QUOTE] + (Quoted(name[..i]) + QuotedByte(name[i]));
    }
    assert name[..|name|] == name;
    conninfo := conninfo + [QUOTE];
  }

  // ----- keyword/value connection strings
  // (section 34.1.1.1 of the PostgreSQL 16 manual), read as libpq reads a C string

  datatype Pair = Pair(key: Bytes, value: Bytes)

  function IsSpace(b: Byte): bool {
    b == 0x20 || 0x09 <= b <= 0x0D
  }

  /** What a C program sees: everything before the first NUL. */
  function CString(s: Bytes): (t: Bytes)
    ensures NUL !in t && t <= s
    ensures t == s <==> NUL !in s
  {
    if s == [] || s[0] == NUL then [] else [s[0]] + CString(s[1..])
  }

  function SkipSpace(s: Bytes): (t: Bytes)
    ensures |t| <= |s|
  {
    if s != [] && IsSpace(s[0]) then SkipSpace(s[1..]) else s
  }

  /** A key runs up to a space or an equals sign. */
  function TakeKey(s: Bytes): (r: (Bytes, Bytes))
    ensures r.0 + r.1 == s
  {
    if s == [] || IsSpace(s[0]) || s[0] == EQUALS then ([], s)
    else var (key, rest) := TakeKey(s[1..]); ([s[0]] + key, rest)
  }

  function Prepend(b: Byte, r: Option<(Bytes, Bytes)>): Option<(Bytes, Bytes)> {
    match r
    case None => None
    case Some((value, rest)) => Some(([b] + value, rest))
  }

  /** A quoted value, after its opening quote: a backslash takes the next byte literally,
      and the value must be closed. */
  function TakeQuoted(s: Bytes): (r: Option<(Bytes, Bytes)>)
    ensures r.Some? ==> |r.value.1| < |s|
  {
    if s == [] then None
    else if s[0] == QUOTE then Some(([], s[1..]))
    else if s[0] == BACKSLASH then if |s| < 2 then None else Prepend(s[1], TakeQuoted(s[2..]))
    else Prepend(s[0], TakeQuoted(s[1..]))
  }

  /** An unquoted value runs up to a space; a backslash takes the next byte literally. */
  function TakePlain(s: Bytes): (r: (Bytes, Bytes))
    ensures |r.1| <= |s|
  {
    if s == [] || IsSpace(s[0]) then ([], s)
    else if s[0] == BACKSLASH then
      if |s| < 2 then ([], []) else var (value, rest) := TakePlain(s[2..]); ([s[1]] + value, rest)
    else var (value, rest) := TakePlain(s[1..]); ([s[0]] + value, rest)
  }

  function AddPair(p: Pair, rest: Option<seq<Pair>>): Option<seq<Pair>> {
    match rest
    case None => None
    case Some(ps) => Some([p] + ps)
  }

  function Parse(s: Bytes): Option<seq<Pair>>
    decreases |s|
  {
    var start := SkipSpace(s);
    if start == [] then Some([])
    else
      var (key, afterKey) := TakeKey(start);
      assert |afterKey| <= |start|;
      var eq := SkipSpace(afterKey);
      if eq == [] || eq[0] != EQUALS then None
      else
        var v := SkipSpace(eq[1..]);
        if v != [] && v[0] == QUOTE then
          match TakeQuoted(v[1..])
          case None => None
          case Some((value, rest)) => AddPair(Pair(key, value), Parse(rest))
        else
          var (value, rest) := TakePlain(v);
          AddPair(Pair(key, value), Parse(rest))
  }

  lemma {:induction false} QuotedCons(name: Bytes)
    requires name != []
    ensures Quoted(name) == QuotedByte(name[0]) + Quoted(name[1..])
  {
    if |name| == 1 {
      assert Quoted(name[..0]) == [] && Quoted(name[1..]) == [];
    } else {
      var front, last := name[..|name| - 1], name[|name| - 1];
      QuotedCons(front);
      assert front[1..] == name[1..][..|name[1..]| - 1];
      assert Quoted(name[1..]) == Quoted(front[1..]) + QuotedByte(last);
    }
  }

  lemma TakeQuotedByte(b: Byte, tail: Bytes)
    ensures TakeQuoted(QuotedByte(b) + tail) == Prepend(b, TakeQuoted(tail))
  {
    var s := QuotedByte(b) + tail;
    if |QuotedByte(b)| == 2 {
      assert s[2..] == tail;
    } else {
      assert s[1..] == tail;
    }
  }

  /** Whatever follows, a quoted name is read back as the name. */
  lemma {:induction false} QuotedReadsBack(name: Bytes, rest: Bytes)
    ensures TakeQuoted(Quoted(name) + ([QUOTE] + rest)) == Some((name, rest))
  {
    if name == [] {
      assert Quoted(name) + ([QUOTE] + rest) == [QUOTE] + rest;
    } else {
      QuotedReadsBack(name[1..], rest);
      QuotedCons(name);
      var tail := Quoted(name[1..]) + ([QUOTE] + rest);
      assert Quoted(name) + ([QUOTE] + rest) == QuotedByte(name[0]) + tail;
      TakeQuotedByte(name[0], tail);
      assert name == [name[0]] + name[1..];
    }
  }

  /** A quoted name with its closing quote missing is never accepted. */
  lemma {:induction false} UnclosedQuote(name: Bytes)
    ensures TakeQuoted(Quoted(name)).None?
  {
    if name != [] {
      QuotedCons(name);
      UnclosedQuote(name[1..]);
      TakeQuotedByte(name[0], Quoted(name[1..]));
    }
  }

  function PairThenRest(key: Bytes, quoted: Option<(Bytes, Bytes)>): Option<seq<Pair>> {
    match quoted
    case None => None
    case Some((value, rest)) => AddPair(Pair(key, value), Parse(rest))
  }

  lemma NothingToSkip(s: Bytes)
    requires s != [] && !IsSpace(s[0])
    ensures SkipSpace(s) == s
  {
  }

  lemma ParseStep(s: Bytes, key: Bytes, afterKey: Bytes, quoted: Bytes)
    requires s != [] && SkipSpace(s) == s && TakeKey(s) == (key, afterKey)
    requires afterKey != [] && SkipSpace(afterKey) == afterKey && afterKey[0] == EQUALS && afterKey[1..] == quoted
    requires quoted != [] && SkipSpace(quoted) == quoted && quoted[0] == QUOTE
    ensures Parse(s) == PairThenRest(key, TakeQuoted(quoted[1..]))
  {
  }

  lemma QuotedTail(value: Bytes)
    ensures var t, q := [EQUALS, QUOTE] + value, [QUOTE] + value;
            t[1..] == q && q[1..] == value && SkipSpace(t) == t && SkipSpace(q) == q
  {
    NothingToSkip([EQUALS, QUOTE] + value);
    NothingToSkip([QUOTE] + value);
  }

  lemma {:induction false} TakeWholeKey(key: Bytes, tail: Bytes)
    requires forall i :: 0 <= i < |key| ==> !IsSpace(key[i]) && key[i] != EQUALS
    requires tail != [] && tail[0] == EQUALS
    ensures TakeKey(key + tail) == (key, tail)
  {
    if key == [] {
      assert key + tail == tail;
    } else {
      TakeWholeKey(key[1..], tail);
      assert (key + tail)[1..] == key[1..] + tail;
      assert key == [key[0]] + key[1..];
    }
  }

  /** A key followed at once by '=' and a quote is one pair, its value whatever the quote holds. */
  lemma QuotedPair(key: Bytes, value: Bytes)
    requires key != [] && forall i :: 0 <= i < |key| ==> !IsSpace(key[i]) && key[i] != EQUALS
    ensures Parse(key + ([EQUALS, QUOTE] + value)) == PairThenRest(key, TakeQuoted(value))
  {
    var afterKey, quoted := [EQUALS, QUOTE] + value, [QUOTE] + value;
    TakeWholeKey(key, afterKey);
    NothingToSkip(key + afterKey);
    QuotedTail(value);
    ParseStep(key + afterKey, key, afterKey, quoted);
  }

  lemma KeyIsDbname(value: Bytes)
    ensures Parse(DBNAME + [EQUALS, QUOTE] + value) == PairThenRest(DBNAME, TakeQuoted(value))
  {
    QuotedPair(DBNAME, value);
    assert DBNAME + [EQUALS, QUOTE] + value == DBNAME + ([EQUALS, QUOTE] + value);
  }

  lemma {:induction false} CStringConcat(a: Bytes, b: Bytes)
    ensures NUL !in a ==> CString(a + b) == a + CString(b)
    ensures NUL in a ==> CString(a + b) == CString(a)
  {
    if a == [] {
      assert a + b == b;
    } else {
      assert (a + b)[1..] == a[1..] + b;
      assert a == [a[0]] + a[1..];
      CStringConcat(a[1..], b);
    }
  }

  lemma {:induction false} CStringQuoted(name: Bytes)
    ensures CString(Quoted(name)) == Quoted(CString(name))
    ensures NUL in Quoted(name) <==> NUL in name
  {
    if name != [] {
      QuotedCons(name);
      CStringQuoted(name[1..]);
      CStringConcat(QuotedByte(name[0]), Quoted(name[1..]));
      if name[0] == NUL {
        assert NUL in QuotedByte(name[0]);
        assert CString(QuotedByte(name[0])) == [];
      } else {
        assert CString(name) == [name[0]] + CString(name[1..]);
        QuotedCons(CString(name));
        assert CString(name)[1..] == CString(name[1..]);
      }
    }
  }

  function Seen(name: Bytes): Bytes {
    if NUL in name then Quoted(CString(name)) else Quoted(name) + [QUOTE]
  }

  lemma SeenTail(name: Bytes)
    ensures CString(Quoted(name) + [QUOTE]) == Seen(name)
  {
    CStringConcat(Quoted(name), [QUOTE]);
    CStringQuoted(name);
    assert CString([QUOTE]) == [QUOTE];
  }

  lemma SeenByLibpq(name: Bytes)
    ensures CString(DatabaseName(name)) == DBNAME + [EQUALS, QUOTE] + Seen(name)
  {
    var head, tail := DBNAME + [EQUALS, QUOTE], Quoted(name) + [QUOTE];
    assert DatabaseName(name) == head + tail;
    assert NUL !in head;
    CStringConcat(head, tail);
    SeenTail(name);
  }

  /** libpq reads the connection string as the single pair dbname = name exactly when the
      name holds no NUL byte; with one, the string libpq sees is never closed. Quotes,
      backslashes, spaces and "host=..." inside the name change nothing. */
  lemma ConninfoRoundTrip(name: Bytes)
    ensures Parse(CString(DatabaseName(name))) == Some([Pair(DBNAME, name)]) <==> NUL !in name
    ensures NUL in name ==> Parse(CString(DatabaseName(name))).None?
  {
    SeenByLibpq(name);
    if NUL in name {
      KeyIsDbname(Quoted(CString(name)));
      UnclosedQuote(CString(name));
    } else {
      KeyIsDbname(Quoted(name) + [QUOTE]);
      QuotedReadsBack(name, []);
      assert Quoted(name) + ([QUOTE] + []) == Quoted(name) + [QUOTE];
      assert Parse([]) == Some([]);
      assert [Pair(DBNAME, name)] + [] == [Pair(DBNAME, name)];
    }
  }

  // ----- the child's environment

  const PGPASSWORD: string := "PGPASSWORD"

  /** An entry's key: the text before its first '=', if it has one. */
  function Key(entry: string): Option<string> {
    if entry == [] then None
    else if entry[0] == '=' then Some([])
    else match Key(entry[1..])
      case None => None
      case Some(k) => Some([entry[0]] + k)
  }

  lemma {:induction false} KeyFits(entry: string)
    ensures Key(entry).Some? ==> |Key(entry).value| < |entry|
  {
    if entry != [] && entry[0] != '=' {
      KeyFits(entry[1..]);
    }
  }

  /** The value a process sees for a key: the last entry that sets it. */
  function Lookup(env: seq<string>, key: string): Option<string> {
    if env == [] then None
    else
      var last := env[|env| - 1];
      KeyFits(last);
      if Key(last) == Some(key) then Some(last[|key| + 1..])
      else Lookup(env[..|env| - 1], key)
  }

  lemma {:induction false} KeyOfAssignment(key: string, value: string)
    requires '=' !in key
    ensures Key(key + ("=" + value)) == Some(key)
  {
    if key == [] {
      assert key + ("=" + value) == "=" + value;
    } else {
      KeyOfAssignment(key[1..], value);
      assert (key + ("=" + value))[1..] == key[1..] + ("=" + value);
      assert key == [key[0]] + key[1..];
    }
  }

  /** The entries that do not set the password, in order. */
  function Others(env: seq<string>): seq<string> {
    if env == [] then []
    else Others(env[..|env| - 1]) + if Key(env[|env| - 1]) == Some(PGPASSWORD) then [] else [env[|env| - 1]]
  }

  method PgDumpEnvironment(env: seq<string>, password: string) returns (out: seq<string>)
    ensures out == Others(env) + [PGPASSWORD + ("=" + password)]
  {
    var filtered: seq<string> := [];
    for i := 0 to |env|
      invariant filtered == Others(env[..i])
    {
      assert env[..i + 1][..i] == env[..i];
      if Key(env[i]) != Some(PGPASSWORD) {
        filtered := filtered + [env[i]];
      }
    }
    assert env[..|env|] == env;
    return filtered + [PGPASSWORD + ("=" + password)];
  }

  /** How many entries set the password. */
  function PasswordEntries(env: seq<string>): nat {
    if env == [] then 0
    else PasswordEntries(env[..|env| - 1]) + if Key(env[|env| - 1]) == Some(PGPASSWORD) then 1 else 0
  }

  lemma {:induction false} OthersLookup(env: seq<string>, key: string)
    ensures PasswordEntries(Others(env)) == 0
    ensures key != PGPASSWORD ==> Lookup(Others(env), key) == Lookup(env, key)
  {
    if env != [] {
      var front, last := env[..|env| - 1], env[|env| - 1];
      OthersLookup(front, key);
      if Key(last) == Some(PGPASSWORD) {
        assert Others(env) == Others(front);
      } else {
        assert Others(env)[..|Others(env)| - 1] == Others(front);
      }
    }
  }

  /** The child sees the configured password, set once, and every other variable as before. */
  lemma EnvironmentSeen(env: seq<string>, password: string, key: string)
    ensures var out := Others(env) + [PGPASSWORD + ("=" + password)];
            && PasswordEntries(out) == 1
            && Lookup(out, key) == if key == PGPASSWORD then Some(password) else Lookup(env, key)
  {
    var entry := PGPASSWORD + ("=" + password);
    var out := Others(env) + [entry];
    assert out[..|out| - 1] == Others(env);
    OthersLookup(env, key);
    KeyOfAssignment(PGPASSWORD, password);
    assert entry[|PGPASSWORD| + 1..] == password;
  }
}
