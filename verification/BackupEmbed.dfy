/** The single embed sent for a backup result (internal/notification/discord.go). */
module BackupEmbed {
  import opened Wrappers
  import opened Text
  import opened Durations
  import Identity

  const EMBED_LIMIT: nat := 6000
  const TITLE: string := "PostgreSQL Backup Notification"
  const GREEN: nat := 0x57F287
  const AMBER: nat := 0xFEE75C
  const RED: nat := 0xED4245
  const NOT_RUN: string := "未実行"
  const PHASES: seq<string> := ["preflight", "dump", "validate", "upload", "cleanup"]

  /** Go's int64, used for sizes in bytes. */
  newtype Size = n: int | -0x8000_0000_0000_0000 <= n <= 0x7FFF_FFFF_FFFF_FFFF

  datatype Phase = Phase(name: string, status: string, duration: Duration)

  datatype Result = Result(
    success: bool, failedPhase: string, size: Size, sizeAvailable: bool, uploadVerified: bool,
    databaseName: string, s3Bucket: string, s3Key: string, total: Duration, phases: seq<Phase>)

  datatype Field = Field(name: string, value: string)
  datatype Embed = Embed(title: string, description: string, color: nat, fields: seq<Field>)

  function Label(name: string): (l: Option<string>)
    ensures l.Some? <==> name in PHASES
    ensures l.Some? ==> 0 < |l.value| <= 8
  {
    if name == "preflight" then Some("事前確認")
    else if name == "dump" then Some("ダンプ作成")
    else if name == "validate" then Some("gzip検証")
    else if name == "upload" then Some("S3保存")
    else if name == "cleanup" then Some("後処理")
    else None
  }

  function PhaseText(p: Phase): (t: string)
    ensures |t| <= 18
  {
    DurationTextLength(p.duration);
    if p.status == "success" then DurationText(p.duration)
    else if p.status == "failure" then DurationText(p.duration) + "（失敗）"
    else if p.status == "skipped" then NOT_RUN
    else "状態不明"
  }

  lemma EndsInSeconds(d: Duration)
    ensures DurationText(d) != [] && DurationText(d)[|DurationText(d)| - 1] == 's'
  {
  }

  /** A phase's text tells its status: a mark at the end if it failed, fixed words if it was
      skipped or has a status that is none of the three, and else its duration alone. */
  lemma PhaseTextTells(p: Phase)
    ensures p.status == "failure" <==> |PhaseText(p)| >= 4 && PhaseText(p)[|PhaseText(p)| - 4..] == "（失敗）"
    ensures p.status == "skipped" <==> PhaseText(p) == "未実行"
    ensures p.status !in {"success", "failure", "skipped"} <==> PhaseText(p) == "状態不明"
    ensures p.status == "success" <==> PhaseText(p) == DurationText(p.duration)
    ensures p.status == "failure" ==> PhaseText(p)[..|PhaseText(p)| - 4] == DurationText(p.duration)
  {
    var t, d := PhaseText(p), DurationText(p.duration);
    EndsInSeconds(p.duration);
    assert "（失敗）"[3] == '）' && "未実行"[2] == '行' && "状態不明"[3] == '明';
    if p.status == "failure" {
      assert t == d + "（失敗）";
      assert t[|t| - 4..] == "（失敗）" && t[..|t| - 4] == d;
      assert t[|t| - 1] == '）';
    }
    assert |t| >= 4 && t[|t| - 4..] == "（失敗）" ==> t[|t| - 1] == '）';
  }

  // ----- phase timings

  predicate IsLastNamed(phases: seq<Phase>, name: string, i: nat)
    requires i < |phases|
  {
    phases[i].name == name && forall j :: i < j < |phases| ==> phases[j].name != name
  }

  /** The entry a name resolves to: the last one carrying it. */
  function LastNamed(phases: seq<Phase>, name: string): (p: Option<Phase>)
    ensures p.Some? ==> exists i :: 0 <= i < |phases| && phases[i] == p.value && IsLastNamed(phases, name, i)
    ensures p.None? ==> forall q :: q in phases ==> q.name != name
  {
    if phases == [] then None
    else if phases[|phases| - 1].name == name then Some(phases[|phases| - 1])
    else LastNamed(phases[..|phases| - 1], name)
  }

  function Line(phases: seq<Phase>, name: string): (t: string)
    requires name in PHASES
    ensures |t| <= 28
  {
    Label(name).value + ": " + match LastNamed(phases, name) case None => NOT_RUN case Some(p) => PhaseText(p)
  }

  /** The total, then a line for each of the first n known phases, in the fixed order. */
  function Timings(r: Result, n: nat): (t: string)
    requires n <= |PHASES|
    ensures |t| <= 18 + 29 * n
  {
    DurationTextLength(r.total);
    if n == 0 then "合計: " + DurationText(r.total)
    else Timings(r, n - 1) + "\n" + Line(r.phases, PHASES[n - 1])
  }

  function Entry(phases: seq<Phase>, name: string): string {
    match LastNamed(phases, name) case None => "未実行" case Some(p) => PhaseText(p)
  }

  lemma LineReads(phases: seq<Phase>, i: nat)
    requires i < 5
    ensures PHASES[i] == ["preflight", "dump", "validate", "upload", "cleanup"][i]
    ensures Line(phases, PHASES[i]) ==
            ["事前確認", "ダンプ作成", "gzip検証", "S3保存", "後処理"][i] + ": " + Entry(phases, PHASES[i])
  {
  }

  /** The whole text, line by line: the total, then the five known phases in order, each under
      its label. */
  lemma TimingLayout(r: Result, i: nat)
    requires i < 5
    ensures Timings(r, 0) == "合計: " + DurationText(r.total)
    ensures Timings(r, i + 1) ==
            Timings(r, i) + "\n" + (["事前確認", "ダンプ作成", "gzip検証", "S3保存", "後処理"][i] + ": "
            + Entry(r.phases, ["preflight", "dump", "validate", "upload", "cleanup"][i]))
  {
    LineReads(r.phases, i);
  }

  /** The table holds, for each listed name, the entry it resolves to. */
  ghost predicate Resolves(byName: map<string, Phase>, phases: seq<Phase>) {
    forall name :: name in PHASES ==> LastNamed(phases, name) == if name in byName then Some(byName[name]) else None
  }

  lemma TableStep(before: map<string, Phase>, phases: seq<Phase>, p: Phase, after: map<string, Phase>)
    requires Resolves(before, phases) && after == if p.name in PHASES then before[p.name := p] else before
    ensures Resolves(after, phases + [p])
  {
    assert (phases + [p])[..|phases|] == phases;
  }

  method PhaseTable(phases: seq<Phase>) returns (byName: map<string, Phase>)
    ensures Resolves(byName, phases)
  {
    byName := map[];
    for i := 0 to |phases|
      invariant Resolves(byName, phases[..i])
    {
      var p := phases[i];
      ghost var before := byName;
      if Label(p.name).Some? {
        byName := byName[p.name := p];
      }
      TableStep(before, phases[..i], p, byName);
      assert phases[..i + 1] == phases[..i] + [p];
    }
    assert phases[..|phases|] == phases;
  }

  method TimingText(r: Result) returns (text: string)
    ensures text == Timings(r, |PHASES|)
  {
    text := "合計: " + DurationText(r.total);
    var byName := PhaseTable(r.phases);
    for k := 0 to |PHASES|
      invariant text == Timings(r, k)
    {
      var name := PHASES[k];
      var status := NOT_RUN;
      if name in byName {
        status := PhaseText(byName[name]);
      }
      assert Label(name).value + ": " + status == Line(r.phases, name);
      text := text + "\n" + (Label(name).value + ": " + status);
    }
  }

  /** The phases whose names are on the fixed list, in order. */
  function Known(phases: seq<Phase>): seq<Phase> {
    if phases == [] then []
    else Known(phases[..|phases| - 1]) + if phases[|phases| - 1].name in PHASES then [phases[|phases| - 1]] else []
  }

  lemma {:induction false} KnownKeepsLast(phases: seq<Phase>, name: string)
    requires name in PHASES
    ensures LastNamed(Known(phases), name) == LastNamed(phases, name)
  {
    if phases != [] {
      var front, last := phases[..|phases| - 1], phases[|phases| - 1];
      KnownKeepsLast(front, name);
      if last.name in PHASES {
        assert Known(phases)[..|Known(phases)| - 1] == Known(front);
      } else {
        assert Known(phases) == Known(front);
      }
    }
  }

  /** Phases with unlisted names never influence the text: any two results that agree on
      the total and on their listed phases print the same timings. */
  lemma {:induction false} UnlistedPhasesInvisible(r: Result, r': Result, n: nat)
    requires n <= |PHASES| && r.total == r'.total && Known(r.phases) == Known(r'.phases)
    ensures Timings(r, n) == Timings(r', n)
  {
    if n > 0 {
      UnlistedPhasesInvisible(r, r', n - 1);
      KnownKeepsLast(r.phases, PHASES[n - 1]);
      KnownKeepsLast(r'.phases, PHASES[n - 1]);
    }
  }

  // ----- the object and its size

  ghost predicate IsFileNameOf(name: string, key: string) {
    '/' !in name && exists dir :: key == dir + name && (dir == [] || dir[|dir| - 1] == '/')
  }

  method FileName(key: string) returns (name: string)
    ensures IsFileNameOf(name, key)
  {
    var i := |key|;
    while i > 0 && key[i - 1] != '/'
      invariant 0 <= i <= |key| && '/' !in key[i..]
    {
      assert key[i - 1..] == [key[i - 1]] + key[i..];
      i := i - 1;
    }
    name := key[i..];
    assert key == key[..i] + name;
  }

  lemma ShorterDirectory(a: string, b: string, d: string, e: string)
    requires d + a == e + b && '/' !in a && (e == [] || e[|e| - 1] == '/')
    ensures |e| <= |d|
  {
    assert forall i :: |d| <= i < |d + a| ==> (d + a)[i] == a[i - |d|];
    assert e != [] ==> (e + b)[|e| - 1] == '/';
  }

  /** The file name is determined: nothing but the text after the last slash qualifies. */
  lemma FileNameUnique(a: string, b: string, key: string)
    requires IsFileNameOf(a, key) && IsFileNameOf(b, key)
    ensures a == b
  {
    var d :| key == d + a && (d == [] || d[|d| - 1] == '/');
    var e :| key == e + b && (e == [] || e[|e| - 1] == '/');
    ShorterDirectory(a, b, d, e);
    ShorterDirectory(b, a, e, d);
    assert a == key[|d|..] && b == key[|e|..];
  }

  function Location(bucket: string, key: string): string {
    if bucket == "" || key == "" then "" else "s3://" + bucket + "/" + key
  }

  function FirstSlash(t: string): (i: nat)
    ensures i <= |t| && '/' !in t[..i] && (i < |t| ==> t[i] == '/')
  {
    if t == [] || t[0] == '/' then 0
    else
      var i := FirstSlash(t[1..]);
      assert t[..i + 1] == [t[0]] + t[1..][..i];
      i + 1
  }

  lemma {:induction false} FirstSlashAtMost(t: string, j: nat)
    requires j < |t| && t[j] == '/'
    ensures FirstSlash(t) <= j
  {
    if j > 0 && t[0] != '/' {
      FirstSlashAtMost(t[1..], j - 1);
    }
  }

  datatype Object = Object(bucket: string, key: string)

  /** A reader of locations: the bucket ends at the first slash. */
  function ReadLocation(t: string): Option<Object> {
    if |t| < 5 || t[..5] != "s3://" then None
    else
      var i := FirstSlash(t[5..]);
      if i < |t| - 5 then Some(Object(t[5..5 + i], t[6 + i..])) else None
  }

  /** A location names its bucket and its key, in this order, exactly if the bucket's name has
      no slash; it is empty exactly if one of them is missing. */
  lemma LocationReadsBack(bucket: string, key: string)
    ensures Location(bucket, key) == "" <==> bucket == "" || key == ""
    ensures bucket != "" && key != "" ==>
      (ReadLocation(Location(bucket, key)) == Some(Object(bucket, key)) <==> '/' !in bucket)
  {
    if bucket != "" && key != "" {
      var t, rest := Location(bucket, key), bucket + "/" + key;
      assert t == "s3://" + rest;
      assert t[..5] == "s3://" && t[5..] == rest;
      var i := FirstSlash(rest);
      assert rest[|bucket|] == '/';
      FirstSlashAtMost(rest, |bucket|);
      assert rest[..i] == bucket[..i];
      assert i < |bucket| ==> bucket[i] == '/';
      if '/' !in bucket {
        assert i == |bucket| && rest[..i] == bucket && rest[i + 1..] == key;
        assert t[5..5 + i] == bucket && t[6 + i..] == key;
      }
    }
  }

  function UnitName(i: nat): string
    requires i <= 4
  {
    ["B", "KiB", "MiB", "GiB", "TiB"][i]
  }

  function Scale(i: nat): (s: nat)
    ensures s >= 1
  {
    if i == 0 then 1 else 1024 * Scale(i - 1)
  }

  /** a / b to the nearest integer, ties to even, as %.2f rounds. */
  function RoundHalfEven(a: nat, b: nat): nat
    requires b > 0
  {
    var q, r := a / b, a % b;
    if 2 * r < b || (2 * r == b && q % 2 == 0) then q else q + 1
  }

  function Hundredths(q: nat): string {
    Decimal(q / 100) + "." + [Digit(q / 10 % 10), Digit(q % 10)]
  }

  /** The size in the unit numbered i. */
  function SizeIn(n: Size, i: nat): string
    requires i <= 4 && (i == 0 || 0 <= n)
  {
    if i == 0 then (if n < 0 then "-" + Decimal(-(n as int)) else Decimal(n as int)) + " B"
    else Hundredths(RoundHalfEven(100 * n as int, Scale(i))) + " " + UnitName(i)
  }

  /** The first unit in which the size is below 1024, or the largest unit. */
  predicate IsUnitFor(n: Size, i: nat) {
    i <= 4 && (i < 4 ==> n as int < 1024 * Scale(i)) && (i > 0 ==> n as int >= Scale(i))
  }

  lemma NearestQuotient(a: nat, b: nat)
    requires b > 0
    ensures 2 * a - b <= 2 * (RoundHalfEven(a, b) * b) <= 2 * a + b
  {
    assert a == a / b * b + a % b;
  }

  lemma HundredthsReadBack(q: nat)
    ensures var t := Hundredths(q);
            |t| >= 4 && t[|t| - 3] == '.' && AllDigits(t[..|t| - 3] + t[|t| - 2..])
            && ReadDigits(0, t[..|t| - 3] + t[|t| - 2..]) == q
  {
    var t, whole := Hundredths(q), Decimal(q / 100);
    var tens := whole + [Digit(q / 10 % 10)];
    DecimalReadsBack(q / 100);
    ReadDigitsSnoc(0, whole, Digit(q / 10 % 10));
    ReadDigitsSnoc(0, tens, Digit(q % 10));
    assert t == whole + ['.', Digit(q / 10 % 10), Digit(q % 10)];
    assert t[..|t| - 3] + t[|t| - 2..] == tens + [Digit(q % 10)];
    assert q == 100 * (q / 100) + 10 * (q / 10 % 10) + q % 10;
  }

  /** The size printed: exact in bytes, and in a larger unit the nearest number of hundredths
      of 1024, 1024^2, 1024^3 or 1024^4 bytes. */
  lemma SizeTells(n: Size, i: nat)
    requires IsUnitFor(n, i)
    ensures i < 4 ==> n as int < [0x400, 0x10_0000, 0x4000_0000, 0x100_0000_0000][i]
    ensures i > 0 ==> n as int >= [1, 0x400, 0x10_0000, 0x4000_0000, 0x100_0000_0000][i]
    ensures i == 0 && n >= 0 ==> exists t :: SizeIn(n, i) == t + " B" && AllDigits(t) && ReadDigits(0, t) == n as int
    ensures i > 0 ==>
      var unit: nat := [1, 0x400, 0x10_0000, 0x4000_0000, 0x100_0000_0000][i];
      exists q: nat :: SizeIn(n, i) == Hundredths(q) + " " + ["B", "KiB", "MiB", "GiB", "TiB"][i]
                       && 200 * n as int - unit <= 2 * (q * unit) <= 200 * n as int + unit
  {
    assert Scale(2) == 0x10_0000;
    if i == 0 {
      if n >= 0 {
        DecimalReadsBack(n as int);
      }
    } else {
      assert Scale(i) == [1, 0x400, 0x10_0000, 0x4000_0000, 0x100_0000_0000][i];
      NearestQuotient(100 * n as int, Scale(i));
      var q := RoundHalfEven(100 * n as int, Scale(i));
      assert SizeIn(n, i) == Hundredths(q) + " " + ["B", "KiB", "MiB", "GiB", "TiB"][i];
    }
  }

  lemma QuotientBound(a: nat, b: nat, c: nat)
    requires b > 0 && a < c * b
    ensures RoundHalfEven(a, b) <= c
  {
    if a / b >= c {
      assert a / b * b >= c * b;
    }
  }

  lemma SizeLength(n: Size, i: nat)
    requires IsUnitFor(n, i)
    ensures 0 < |SizeIn(n, i)| <= 22
  {
    SmallPowers();
    if i == 0 {
      DecimalLength(if n < 0 then -(n as int) else n as int, 19);
    } else {
      assert Scale(4) == 0x100_0000_0000 by {
        assert Scale(2) == 0x10_0000;
      }
      var q := RoundHalfEven(100 * n as int, Scale(i));
      assert n as int < 0x1_000000 * Scale(i);
      QuotientBound(100 * n as int, Scale(i), 100 * 0x1_000000);
      DecimalLength(q / 100, 10);
    }
  }

  method SizeText(n: Size, available: bool) returns (text: string)
    ensures !available ==> text == Identity.UNKNOWN
    ensures available ==> exists i :: IsUnitFor(n, i) && text == SizeIn(n, i)
    ensures 0 < |text| <= 22
  {
    if !available {
      return Identity.UNKNOWN;
    }
    var i, scale := 0, 1;
    while n as int >= 1024 * scale && i < 4
      invariant 0 <= i <= 4 && scale == Scale(i)
      invariant i > 0 ==> n as int >= scale
    {
      i, scale := i + 1, 1024 * scale;
    }
    SizeLength(n, i);
    assert IsUnitFor(n, i);
    text := SizeIn(n, i);
  }

  // ----- the embed

  function Description(r: Result): string {
    if r.success then "バックアップは成功しました"
    else if r.uploadVerified then "S3への保存は確認済みですが、バックアップは失敗しました"
    else "バックアップは失敗しました"
  }

  function Color(r: Result): nat {
    if r.success then GREEN else if r.uploadVerified then AMBER else RED
  }

  /** The three states a reader can tell apart, by colour and by text alike. */
  lemma StatesAreDistinct(r: Result, r': Result)
    ensures Color(r) == Color(r') <==> r.success == r'.success && (!r.success ==> r.uploadVerified == r'.uploadVerified)
    ensures Color(r) == Color(r') <==> Description(r) == Description(r')
    ensures Color(r) == 0x57F287 <==> r.success
    ensures Color(r) == 0xFEE75C <==> !r.success && r.uploadVerified
    ensures Color(r) == 0xED4245 <==> !r.success && !r.uploadVerified
    ensures Description(r) == "バックアップは成功しました" <==> r.success
    ensures Description(r) == "S3への保存は確認済みですが、バックアップは失敗しました" <==> !r.success && r.uploadVerified
    ensures Description(r) == "バックアップは失敗しました" <==> !r.success && !r.uploadVerified
  {
    assert |"バックアップは成功しました"| == |"バックアップは失敗しました"|;
    assert "バックアップは成功しました"[7] != "バックアップは失敗しました"[7];
  }

  function FieldUnits(fields: seq<Field>): nat {
    if fields == [] then 0
    else FieldUnits(fields[..|fields| - 1]) + Units(fields[|fields| - 1].name) + Units(fields[|fields| - 1].value)
  }

  function EmbedUnits(e: Embed): nat {
    Units(e.title) + Units(e.description) + FieldUnits(e.fields)
  }

  predicate GoodField(f: Field) {
    1 <= Units(f.value) <= Identity.FIELD_LIMIT && |f.name| <= 16
  }

  /** A field made of fixed words and numbers. */
  predicate ShortField(f: Field) {
    1 <= |f.value| <= 163 && |f.name| <= 16
  }

  lemma {:induction false} FieldUnitsBound(fields: seq<Field>)
    requires forall i :: 0 <= i < |fields| ==> if i < 3 then GoodField(fields[i]) else ShortField(fields[i])
    ensures FieldUnits(fields) <= 32 * |fields| + if |fields| <= 3 then 1024 * |fields| else 3072 + 326 * (|fields| - 3)
    ensures forall f :: f in fields ==> GoodField(f)
  {
    if fields != [] {
      var front, last := fields[..|fields| - 1], fields[|fields| - 1];
      FieldUnitsBound(front);
      UnitsBounds(last.name);
      UnitsBounds(last.value);
      assert fields == front + [last];
    }
  }

  lemma EmbedBound(e: Embed)
    requires |e.title| <= 40 && |e.description| <= 40 && |e.fields| <= 7
    requires forall i :: 0 <= i < |e.fields| ==> if i < 3 then GoodField(e.fields[i]) else ShortField(e.fields[i])
    ensures EmbedUnits(e) <= EMBED_LIMIT && forall f :: f in e.fields ==> GoodField(f)
  {
    FieldUnitsBound(e.fields);
    UnitsBounds(e.title);
    UnitsBounds(e.description);
  }

  lemma IdentityField(name: string, s: string)
    requires |name| <= 16
    ensures GoodField(Field(name, Identity.Value(s)))
  {
    Identity.UnknownIffEmpty(s);
    UnitsBounds(Identity.Value(s));
    if s != "" {
      Identity.ModeIsVisible(s);
    }
  }

  /** The three identity fields, for the given file name. */
  function IdentityFields(r: Result, name: string): (fields: seq<Field>)
    ensures |fields| == 3 && forall i :: 0 <= i < 3 ==> GoodField(fields[i])
  {
    IdentityField("Database", r.databaseName);
    IdentityField("Backup File", name);
    IdentityField("S3 Location", Location(r.s3Bucket, r.s3Key));
    [Field("Database", Identity.Value(r.databaseName)),
     Field("Backup File", Identity.Value(name)),
     Field("S3 Location", Identity.Value(Location(r.s3Bucket, r.s3Key)))]
  }

  function FailedPhaseField(r: Result): (fields: seq<Field>)
    ensures |fields| <= 1 && forall i :: 0 <= i < |fields| ==> ShortField(fields[i])
  {
    if Label(r.failedPhase).Some? then [Field("失敗フェーズ", Label(r.failedPhase).value)] else []
  }

  /** Everything after the identity fields, for the given size text. */
  function MetricFields(r: Result, size: string): (fields: seq<Field>)
    requires 0 < |size| <= 22
    ensures 3 <= |fields| <= 4 && forall i :: 0 <= i < |fields| ==> ShortField(fields[i])
  {
    [Field("File Size", size), Field("S3保存確認", if r.uploadVerified then "確認済み" else "未確認")]
    + FailedPhaseField(r) + [Field("処理時間", Timings(r, 5))]
  }

  ghost predicate IsSizeText(r: Result, size: string) {
    if r.sizeAvailable then exists i :: IsUnitFor(r.size, i) && size == SizeIn(r.size, i) else size == Identity.UNKNOWN
  }

  method AddIdentity(r: Result) returns (fields: seq<Field>, name: string)
    ensures IsFileNameOf(name, r.s3Key) && fields == IdentityFields(r, name)
  {
    var value := Identity.IdentityValue(r.databaseName);
    fields := [Field("Database", value)];
    name := FileName(r.s3Key);
    value := Identity.IdentityValue(name);
    fields := fields + [Field("Backup File", value)];
    value := Identity.IdentityValue(Location(r.s3Bucket, r.s3Key));
    fields := fields + [Field("S3 Location", value)];
  }

  method AddMetrics(r: Result, fields: seq<Field>) returns (out: seq<Field>, size: string)
    ensures 0 < |size| <= 22 && IsSizeText(r, size)
    ensures out == fields + MetricFields(r, size)
  {
    size := SizeText(r.size, r.sizeAvailable);
    out := [Field("File Size", size)];
    var verified := "未確認";
    if r.uploadVerified {
      verified := "確認済み";
    }
    out := out + [Field("S3保存確認", verified)];
    if Label(r.failedPhase).Some? {
      out := out + [Field("失敗フェーズ", Label(r.failedPhase).value)];
    }
    var timing := TimingText(r);
    out := fields + (out + [Field("処理時間", timing)]);
  }

  lemma LayoutBound(e: Embed, identity: seq<Field>, metrics: seq<Field>)
    requires |e.title| <= 40 && |e.description| <= 40 && e.fields == identity + metrics
    requires |identity| == 3 && forall i :: 0 <= i < 3 ==> GoodField(identity[i])
    requires |metrics| <= 4 && forall i :: 0 <= i < |metrics| ==> ShortField(metrics[i])
    ensures EmbedUnits(e) <= EMBED_LIMIT && forall f :: f in e.fields ==> GoodField(f)
  {
    EmbedBound(e);
  }

  /** The field reads back to the text, or says that there is none. */
  predicate Reads(f: Field, name: string, text: string) {
    f.name == name
    && if text == "" then f.value == "未取得" else Identity.ReadField(f.value) == Some(Identity.Shown(text))
  }

  /** The embed's fields in order: database, file and location as identities, the size, the
      verification, the failed phase exactly if its name is a known one, and the timings. */
  predicate LaidOut(fields: seq<Field>, r: Result, name: string, size: string) {
    var known := r.failedPhase in ["preflight", "dump", "validate", "upload", "cleanup"];
    && |fields| == (if known then 7 else 6)
    && Reads(fields[0], "Database", r.databaseName)
    && Reads(fields[1], "Backup File", name)
    && Reads(fields[2], "S3 Location", Location(r.s3Bucket, r.s3Key))
    && fields[3] == Field("File Size", size)
    && fields[4] == Field("S3保存確認", if r.uploadVerified then "確認済み" else "未確認")
    && fields[|fields| - 1] == Field("処理時間", Timings(r, 5))
    && (known ==> fields[5].name == "失敗フェーズ" && Label(r.failedPhase) == Some(fields[5].value))
  }

  lemma IdentityReads(f: Field, text: string)
    requires f.value == Identity.Value(text)
    ensures Reads(f, f.name, text)
  {
    if text != "" {
      Identity.FieldReadsBack(text);
    }
  }

  lemma Joined(a: seq<Field>, b: seq<Field>)
    requires |a| == 3 && 3 <= |b| <= 4
    ensures var all := a + b;
            && |all| == 3 + |b| && all[0] == a[0] && all[1] == a[1] && all[2] == a[2]
            && all[3] == b[0] && all[4] == b[1] && all[5] == b[2] && all[|all| - 1] == b[|b| - 1]
  {
  }

  lemma MetricsRead(r: Result, size: string)
    requires 0 < |size| <= 22
    ensures var fields, known := MetricFields(r, size), r.failedPhase in PHASES;
            && |fields| == (if known then 4 else 3) && fields[0] == Field("File Size", size)
            && fields[1] == Field("S3保存確認", if r.uploadVerified then "確認済み" else "未確認")
            && fields[|fields| - 1] == Field("処理時間", Timings(r, 5))
            && (known ==> fields[2].name == "失敗フェーズ" && Label(r.failedPhase) == Some(fields[2].value))
  {
  }

  lemma LayoutReads(r: Result, name: string, size: string)
    requires 0 < |size| <= 22
    ensures LaidOut(IdentityFields(r, name) + MetricFields(r, size), r, name, size)
  {
    var identity, metrics := IdentityFields(r, name), MetricFields(r, size);
    IdentityReads(identity[0], r.databaseName);
    IdentityReads(identity[1], name);
    IdentityReads(identity[2], Location(r.s3Bucket, r.s3Key));
    MetricsRead(r, size);
    Joined(identity, metrics);
  }

  /** The embed is exactly the fixed layout over the rendered values, and stays within
      every limit: 6000 units in all, each value between 1 and 1024 units. */
  method Build(r: Result) returns (e: Embed, name: string, size: string)
    ensures IsFileNameOf(name, r.s3Key) && 0 < |size| <= 22 && IsSizeText(r, size)
    ensures e == Embed(TITLE, Description(r), Color(r), IdentityFields(r, name) + MetricFields(r, size))
    ensures EmbedUnits(e) <= 6000 && forall f :: f in e.fields ==> 1 <= Units(f.value) <= 1024
    ensures LaidOut(e.fields, r, name, size)
  {
    var fields;
    fields, name := AddIdentity(r);
    fields, size := AddMetrics(r, fields);
    e := Embed(TITLE, Description(r), Color(r), fields);
    LayoutBound(e, IdentityFields(r, name), MetricFields(r, size));
    LayoutReads(r, name, size);
  }
}
