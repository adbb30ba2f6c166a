/** `parseCSV` of the upload component: line splitting, the quote-aware
    field loop of `parseLine`, trimming, and the header/rows split. */
module Csv {
  import opened Common

  // ---------------------------------------------------------------------
  // `String.prototype.trim`
  // ---------------------------------------------------------------------

  /** The characters `trim` removes: ECMAScript's WhiteSpace (tab, vertical
      tab, form feed, space, no-break space, the byte order mark and the
      space separators of Unicode) and LineTerminator characters. */
  predicate IsSpace(c: char)
  {
    || c == '\t' || c == '\U{000B}' || c == '\U{000C}' || c == ' ' || c == '\U{00A0}' || c == '\U{FEFF}'
    || c == '\n' || c == '\r' || c == '\U{2028}' || c == '\U{2029}'
    || c == '\U{1680}' || ('\U{2000}' <= c <= '\U{200A}') || c == '\U{202F}' || c == '\U{205F}' || c == '\U{3000}'
  }

  /** Neither end of `s` is white space. */
  predicate Trimmed(s: string)
  {
    s == [] || (!IsSpace(s[0]) && !IsSpace(s[|s| - 1]))
  }

  /** Drops the leading white space. */
  function TrimStart(s: string): (r: string)
    ensures |r| <= |s| && r == s[|s| - |r|..]
    ensures forall k :: 0 <= k < |s| - |r| ==> IsSpace(s[k])
    ensures r == [] || !IsSpace(r[0])
    decreases |s|
  {
    if s != [] && IsSpace(s[0]) then TrimStart(s[1..]) else s
  }

  /** Drops the trailing white space. */
  function TrimEnd(s: string): (r: string)
    ensures |r| <= |s| && r == s[..|r|]
    ensures forall k :: |r| <= k < |s| ==> IsSpace(s[k])
    ensures r == [] || !IsSpace(r[|r| - 1])
    decreases |s|
  {
    if s != [] && IsSpace(s[|s| - 1]) then TrimEnd(s[..|s| - 1]) else s
  }

  /** `s.trim()`. */
  function Trim(s: string): (r: string)
    ensures Trimmed(r)
  {
    TrimEnd(TrimStart(s))
  }

  /** `trim` keeps a slice of `s` and removes only white space around it. */
  lemma TrimSlice(s: string) returns (i: nat, j: nat)
    ensures i <= j <= |s| && Trim(s) == s[i..j]
    ensures forall k :: 0 <= k < i ==> IsSpace(s[k])
    ensures forall k :: j <= k < |s| ==> IsSpace(s[k])
  {
    var t := TrimStart(s);
    i := |s| - |t|;
    j := i + |TrimEnd(t)|;
    assert t == s[i..];
    assert Trim(s) == t[..j - i];
    assert t[..j - i] == s[i..j];
    forall k | j <= k < |s|
      ensures IsSpace(s[k])
    {
      assert s[k] == t[k - i];
    }
  }

  /** A line is blank, `!l.trim().length`, exactly when it is all white space. */
  lemma {:induction false} TrimBlank(s: string)
    ensures Trim(s) == [] <==> forall k :: 0 <= k < |s| ==> IsSpace(s[k])
  {
    var i, j := TrimSlice(s);
    if Trim(s) == [] {
      forall k | 0 <= k < |s|
        ensures IsSpace(s[k])
      {
        if i <= k < j {
          assert false;
        }
      }
    } else {
      assert s[i] == Trim(s)[0];
    }
  }

  /** A string without white space at either end is left alone; in
      particular trimming twice is trimming once. */
  lemma TrimTrimmed(s: string)
    requires Trimmed(s)
    ensures Trim(s) == s
  {
  }

  lemma TrimIdempotent(s: string)
    ensures Trim(Trim(s)) == Trim(s)
  {
    TrimTrimmed(Trim(s));
  }

  /** `arr.map(s => s.trim())`. */
  function TrimAll(fs: seq<string>): (r: seq<string>)
    ensures |r| == |fs|
    ensures forall k :: 0 <= k < |fs| ==> r[k] == Trim(fs[k])
  {
    seq(|fs|, k requires 0 <= k < |fs| => Trim(fs[k]))
  }

  // ---------------------------------------------------------------------
  // `split` and `join`
  // ---------------------------------------------------------------------

  /** `s.split(sep)` for a one-character separator: never empty, and the
      empty string gives one empty piece. */
  function SplitOn(s: string, sep: char): (r: seq<string>)
    ensures |r| >= 1
    decreases |s|
  {
    if s == [] then [""]
    else
      var rest := SplitOn(s[1..], sep);
      if s[0] == sep then [""] + rest else [[s[0]] + rest[0]] + rest[1..]
  }

  /** `parts.join(sep)`. */
  function JoinWith(parts: seq<string>, sep: string): string
    decreases |parts|
  {
    if parts == [] then ""
    else if |parts| == 1 then parts[0]
    else parts[0] + sep + JoinWith(parts[1..], sep)
  }

  /** No piece of a split holds the separator. */
  lemma {:induction false} SplitOnPieces(s: string, sep: char)
    ensures forall k :: 0 <= k < |SplitOn(s, sep)| ==> sep !in SplitOn(s, sep)[k]
    ensures forall k, c :: 0 <= k < |SplitOn(s, sep)| && c in SplitOn(s, sep)[k] ==> c in s
    decreases |s|
  {
    if s != [] {
      var rest := SplitOn(s[1..], sep);
      SplitOnPieces(s[1..], sep);
      forall c | c in s[1..]
        ensures c in s
      {
        var i :| 0 <= i < |s[1..]| && s[1..][i] == c;
        assert s[i + 1] == c;
      }
      if s[0] != sep {
        forall k | 1 <= k < |rest|
          ensures ([[s[0]] + rest[0]] + rest[1..])[k] == rest[k]
        {
        }
      }
    }
  }

  /** Joining the pieces of a split gives back the string. */
  lemma {:induction false} JoinSplit(s: string, sep: char)
    ensures JoinWith(SplitOn(s, sep), [sep]) == s
    decreases |s|
  {
    if s != [] {
      var rest := SplitOn(s[1..], sep);
      JoinSplit(s[1..], sep);
      if s[0] == sep {
        assert ([""] + rest)[1..] == rest;
      } else if |rest| > 1 {
        assert ([[s[0]] + rest[0]] + rest[1..])[1..] == rest[1..];
        assert JoinWith(rest, [sep]) == rest[0] + [sep] + JoinWith(rest[1..], [sep]);
      }
    }
  }

  /** Splitting a join of separator-free pieces gives back the pieces. */
  lemma {:induction false} SplitJoin(parts: seq<string>, sep: char)
    requires |parts| >= 1
    requires forall k :: 0 <= k < |parts| ==> sep !in parts[k]
    ensures SplitOn(JoinWith(parts, [sep]), sep) == parts
    decreases |parts|
  {
    if |parts| == 1 {
      SplitPlain(parts[0], [], sep);
      assert parts[0] + [] == parts[0];
      assert SplitOn([], sep) == [""];
      assert parts[0] + "" == parts[0];
    } else {
      var j := JoinWith(parts[1..], [sep]);
      SplitJoin(parts[1..], sep);
      SplitPlain(parts[0], [sep] + j, sep);
      assert parts[0] + [sep] + j == parts[0] + ([sep] + j);
      assert ([sep] + j)[1..] == j;
      assert SplitOn([sep] + j, sep) == [""] + parts[1..];
      assert parts[0] + "" == parts[0];
      assert parts == [parts[0]] + parts[1..];
    }
  }

  /** A separator-free prefix only extends the first piece. */
  lemma {:induction false} SplitPlain(p: string, t: string, sep: char)
    requires sep !in p
    ensures SplitOn(p + t, sep) == [p + SplitOn(t, sep)[0]] + SplitOn(t, sep)[1..]
    decreases |p|
  {
    var st := SplitOn(t, sep);
    if p == [] {
      assert p + t == t;
      assert p + st[0] == st[0];
      assert [st[0]] + st[1..] == st;
    } else {
      assert (p + t)[1..] == p[1..] + t;
      assert (p + t)[0] == p[0];
      SplitPlain(p[1..], t, sep);
      var r := SplitOn(p[1..] + t, sep);
      assert r[0] == p[1..] + st[0];
      assert r[1..] == st[1..];
      assert [p[0]] + (p[1..] + st[0]) == p + st[0];
    }
  }

  // ---------------------------------------------------------------------
  // Lines
  // ---------------------------------------------------------------------

  /** `.replace(/\r\n/g, '\n')`: each CR LF pair, left to right, becomes LF. */
  function ReplaceCrLf(s: string): string
    decreases |s|
  {
    if s == [] then ""
    else if |s| >= 2 && s[0] == '\r' && s[1] == '\n' then "\n" + ReplaceCrLf(s[2..])
    else [s[0]] + ReplaceCrLf(s[1..])
  }

  /** `.replace(/\r/g, '\n')`: every remaining CR becomes LF. */
  function ReplaceCr(s: string): (r: string)
    ensures |r| == |s|
    ensures forall k :: 0 <= k < |s| ==> r[k] == (if s[k] == '\r' then '\n' else s[k])
  {
    seq(|s|, k requires 0 <= k < |s| => if s[k] == '\r' then '\n' else s[k])
  }

  /** Both replacements: afterwards no CR is left. */
  function NormalizeBreaks(s: string): (r: string)
    ensures '\r' !in r
  {
    ReplaceCr(ReplaceCrLf(s))
  }

  /** `l.trim().length`: the line is not blank. */
  predicate NonBlank(l: string)
  {
    Trim(l) != []
  }

  /** Line 6 of `parseCSV`: the non-blank lines of the text, CR LF, CR and
      LF all counting as a line break. */
  function Lines(text: string): (r: seq<string>)
    ensures forall k :: 0 <= k < |r| ==> NonBlank(r[k]) && '\n' !in r[k] && '\r' !in r[k]
  {
    var pieces := SplitOn(NormalizeBreaks(text), '\n');
    SplitOnPieces(NormalizeBreaks(text), '\n');
    assert forall l :: l in pieces ==> '\n' !in l && '\r' !in l;
    Filter(pieces, NonBlank)
  }

  lemma {:induction false} ReplaceCrLfPlain(p: string, t: string)
    requires '\r' !in p
    ensures ReplaceCrLf(p + t) == p + ReplaceCrLf(t)
    decreases |p|
  {
    if p != [] {
      assert (p + t)[0] == p[0] != '\r';
      assert (p + t)[1..] == p[1..] + t;
      assert '\r' !in p[1..];
      ReplaceCrLfPlain(p[1..], t);
      assert [p[0]] + (p[1..] + ReplaceCrLf(t)) == p + ReplaceCrLf(t);
    } else {
      assert p + t == t;
    }
  }

  lemma ReplaceCrAppend(a: string, b: string)
    ensures ReplaceCr(a + b) == ReplaceCr(a) + ReplaceCr(b)
  {
  }

  /** One of the three line breaks the upload accepts. */
  predicate IsBreak(sep: string)
  {
    sep == "\n" || sep == "\r\n" || sep == "\r"
  }

  lemma ReplaceCrPlain(p: string)
    requires '\r' !in p
    ensures ReplaceCr(p) == p
  {
  }

  /** A line break followed by the rest of the text becomes one LF. */
  lemma BreakStep(sep: string, rest: string)
    requires IsBreak(sep)
    requires sep == "\r" ==> '\n' !in rest
    ensures NormalizeBreaks(sep + rest) == "\n" + NormalizeBreaks(rest)
  {
    if sep == "\r\n" {
      assert (sep + rest)[2..] == rest;
    } else {
      assert (sep + rest)[1..] == rest;
      if sep == "\r" && rest != [] {
        assert rest[0] in rest;
      }
    }
    assert ReplaceCrLf(sep + rest) == [sep[|sep| - 1]] + ReplaceCrLf(rest) || ReplaceCrLf(sep + rest) == "\n" + ReplaceCrLf(rest);
    ReplaceCrAppend([ReplaceCrLf(sep + rest)[0]], ReplaceCrLf(rest));
  }

  /** A character that neither the pieces nor the separator hold is not in the join. */
  lemma {:induction false} JoinAvoids(parts: seq<string>, sep: string, c: char)
    requires c !in sep
    requires forall k :: 0 <= k < |parts| ==> c !in parts[k]
    ensures c !in JoinWith(parts, sep)
    decreases |parts|
  {
    if |parts| > 1 {
      JoinAvoids(parts[1..], sep, c);
    }
  }

  /** Lines joined with any one of the three breaks read back as joined with LF. */
  lemma {:induction false} NormalizeJoin(ls: seq<string>, sep: string)
    requires IsBreak(sep)
    requires forall k :: 0 <= k < |ls| ==> '\r' !in ls[k] && '\n' !in ls[k]
    ensures NormalizeBreaks(JoinWith(ls, sep)) == JoinWith(ls, "\n")
    decreases |ls|
  {
    if |ls| == 1 {
      ReplaceCrLfPlain(ls[0], "");
      assert ls[0] + "" == ls[0];
      ReplaceCrPlain(ls[0]);
    } else if |ls| > 1 {
      var rest := JoinWith(ls[1..], sep);
      NormalizeJoin(ls[1..], sep);
      if sep == "\r" {
        JoinAvoids(ls[1..], sep, '\n');
      }
      BreakStep(sep, rest);
      assert ls[0] + sep + rest == ls[0] + (sep + rest);
      ReplaceCrLfPlain(ls[0], sep + rest);
      ReplaceCrAppend(ls[0], ReplaceCrLf(sep + rest));
      ReplaceCrPlain(ls[0]);
      assert ls[0] + ("\n" + JoinWith(ls[1..], "\n")) == ls[0] + "\n" + JoinWith(ls[1..], "\n");
    }
  }

  // ---------------------------------------------------------------------
  // `parseLine`
  // ---------------------------------------------------------------------

  /** The fields the character loop of `parseLine` collects from what is
      left of the line, `s`, given whether it is inside quotes, the field so
      far and the fields already pushed. A `""` inside quotes stands for one
      quote; any other quote opens or closes quoting; a comma outside quotes
      ends the field. */
  function Scan(s: string, inQ: bool, cur: string, acc: seq<string>): seq<string>
    decreases |s|
  {
    if s == [] then acc + [cur]
    else if s[0] == '"' then
      if inQ && |s| > 1 && s[1] == '"' then Scan(s[2..], inQ, cur + "\"", acc)
      else Scan(s[1..], !inQ, cur, acc)
    else if s[0] == ',' && !inQ then Scan(s[1..], inQ, "", acc + [cur])
    else Scan(s[1..], inQ, cur + [s[0]], acc)
  }

  /** `parseLine(line)`. */
  function Parse(line: string): seq<string>
  {
    TrimAll(Scan(line, false, "", []))
  }

  /** The `parseLine` helper of `parseCSV`, lines 8-30. */
  method ParseLine(line: string) returns (fields: seq<string>)
    ensures fields == Parse(line)
  {
    var result: seq<string> := [];
    var current := "";
    var inQuotes := false;
    var i := 0;
    while i < |line|
      invariant 0 <= i <= |line|
      invariant Scan(line[i..], inQuotes, current, result) == Scan(line, false, "", [])
      decreases |line| - i
    {
      var ch := line[i];
      if ch == '"' {
        if inQuotes && i + 1 < |line| && line[i + 1] == '"' {
          assert line[i..][2..] == line[i + 2..];
          current := current + "\"";
          i := i + 1;
        } else {
          assert line[i..][1..] == line[i + 1..];
          inQuotes := !inQuotes;
        }
      } else if ch == ',' && !inQuotes {
        assert line[i..][1..] == line[i + 1..];
        result := result + [current];
        current := "";
      } else {
        assert line[i..][1..] == line[i + 1..];
        current := current + [ch];
      }
      i := i + 1;
    }
    result := result + [current];
    fields := TrimAll(result);
  }

  /** The number of occurrences of `c` in `s`. */
  function Count(s: string, c: char): nat
    decreases |s|
  {
    if s == [] then 0 else (if s[0] == c then 1 else 0) + Count(s[1..], c)
  }

  /** The commas of `s` that end a field: those met outside quotes, where a
      `""` inside quotes is one escaped quote and any other quote opens or
      closes quoting. */
  function OutsideCommas(s: string, inQ: bool): nat
    decreases |s|
  {
    if s == [] then 0
    else if s[0] == '"' then
      if inQ && |s| > 1 && s[1] == '"' then OutsideCommas(s[2..], inQ)
      else OutsideCommas(s[1..], !inQ)
    else if s[0] == ',' && !inQ then 1 + OutsideCommas(s[1..], inQ)
    else OutsideCommas(s[1..], inQ)
  }

  /** A line has exactly one field more than it has commas outside quotes,
      so at least one, and at most one more than it has commas. */
  lemma {:induction false} ScanCount(s: string, inQ: bool, cur: string, acc: seq<string>)
    ensures |Scan(s, inQ, cur, acc)| == |acc| + 1 + OutsideCommas(s, inQ)
    ensures OutsideCommas(s, inQ) <= Count(s, ',')
    ensures |acc| + 1 <= |Scan(s, inQ, cur, acc)| <= |acc| + 1 + Count(s, ',')
    decreases |s|
  {
    if s != [] {
      if s[0] == '"' {
        if inQ && |s| > 1 && s[1] == '"' {
          ScanCount(s[2..], inQ, cur + "\"", acc);
          assert Count(s, ',') == Count(s[2..], ',') by {
            assert s[1..][1..] == s[2..];
          }
        } else {
          ScanCount(s[1..], !inQ, cur, acc);
        }
      } else if s[0] == ',' && !inQ {
        ScanCount(s[1..], inQ, "", acc + [cur]);
      } else {
        ScanCount(s[1..], inQ, cur + [s[0]], acc);
      }
    }
  }

  /** Without quotes a line is split at every comma and each field trimmed. */
  lemma {:induction false} ScanPlain(s: string, cur: string, acc: seq<string>)
    requires '"' !in s
    ensures Scan(s, false, cur, acc) == acc + [cur + SplitOn(s, ',')[0]] + SplitOn(s, ',')[1..]
    decreases |s|
  {
    if s == [] {
      assert cur + "" == cur;
    } else {
      var rest := SplitOn(s[1..], ',');
      ScanPlain(s[1..], if s[0] == ',' then "" else cur + [s[0]], if s[0] == ',' then acc + [cur] else acc);
      if s[0] == ',' {
        assert "" + rest[0] == rest[0];
        assert [rest[0]] + rest[1..] == rest;
        assert cur + "" == cur;
        assert SplitOn(s, ',') == [""] + rest;
        assert acc + [cur] + [rest[0]] + rest[1..] == acc + [cur] + rest;
      } else {
        assert cur + [s[0]] + rest[0] == cur + ([s[0]] + rest[0]);
      }
    }
  }

  /** A line without quotes parses to its comma-separated pieces, trimmed,
      so it has one field more than it has commas. */
  lemma ParsePlain(line: string)
    requires '"' !in line
    ensures Parse(line) == TrimAll(SplitOn(line, ','))
  {
    var sp := SplitOn(line, ',');
    ScanPlain(line, "", []);
    assert "" + sp[0] == sp[0];
    assert [sp[0]] + sp[1..] == sp;
    assert [] + ["" + sp[0]] + sp[1..] == sp;
  }

  /** Fields without commas, quotes or outer white space, joined by commas,
      parse back to themselves. */
  lemma ParseJoinPlain(fs: seq<string>)
    requires |fs| >= 1
    requires forall k :: 0 <= k < |fs| ==> ',' !in fs[k] && '"' !in fs[k] && Trimmed(fs[k])
    ensures Parse(JoinWith(fs, ",")) == fs
  {
    JoinAvoids(fs, ",", '"');
    ParsePlain(JoinWith(fs, ","));
    SplitJoin(fs, ',');
    TrimAllTrimmed(fs);
  }

  /** `"` doubled, as a CSV writer escapes it inside a quoted field. */
  function Escape(f: string): string
    decreases |f|
  {
    if f == [] then "" else (if f[0] == '"' then "\"\"" else [f[0]]) + Escape(f[1..])
  }

  /** A field written between quotes, its quotes doubled. */
  function Quote(f: string): string
  {
    "\"" + Escape(f) + "\""
  }

  /** Each field quoted. */
  function QuoteAll(fs: seq<string>): (r: seq<string>)
    ensures |r| == |fs|
    ensures forall k :: 0 <= k < |fs| ==> r[k] == Quote(fs[k])
  {
    seq(|fs|, k requires 0 <= k < |fs| => Quote(fs[k]))
  }

  /** Inside quotes an escaped field reads back as the field. */
  lemma {:induction false} ScanEscaped(f: string, t: string, cur: string, acc: seq<string>)
    ensures Scan(Escape(f) + t, true, cur, acc) == Scan(t, true, cur + f, acc)
    decreases |f|
  {
    if f == [] {
      assert Escape(f) + t == t;
      assert cur + f == cur;
    } else {
      var e := if f[0] == '"' then "\"\"" else [f[0]];
      assert Escape(f) + t == e + (Escape(f[1..]) + t);
      ScanEscaped(f[1..], t, cur + [f[0]], acc);
      assert cur + [f[0]] + f[1..] == cur + f;
      if f[0] == '"' {
        assert (e + (Escape(f[1..]) + t))[2..] == Escape(f[1..]) + t;
      } else {
        assert (e + (Escape(f[1..]) + t))[1..] == Escape(f[1..]) + t;
      }
    }
  }

  /** A quoted field followed by the rest of the line reads back as the field. */
  lemma ScanQuoted(f: string, t: string, acc: seq<string>)
    requires t == [] || t[0] != '"'
    ensures Scan(Quote(f) + t, false, "", acc) == Scan(t, false, f, acc)
  {
    var s := Quote(f) + t;
    assert s == "\"" + (Escape(f) + ("\"" + t));
    assert s[1..] == Escape(f) + ("\"" + t);
    ScanEscaped(f, "\"" + t, "", acc);
    assert "" + f == f;
    assert ("\"" + t)[1..] == t;
  }

  /** Quoting every field and joining with commas round-trips through
      `parseLine`, commas and quotes in the fields included; the fields come
      back trimmed. */
  lemma {:induction false} ScanJoinQuoted(fs: seq<string>, acc: seq<string>)
    requires |fs| >= 1
    ensures Scan(JoinWith(QuoteAll(fs), ","), false, "", acc) == acc + fs
    decreases |fs|
  {
    var q := QuoteAll(fs);
    if |fs| == 1 {
      assert JoinWith(q, ",") == Quote(fs[0]) + "";
      ScanQuoted(fs[0], "", acc);
    } else {
      var rest := JoinWith(q[1..], ",");
      assert q[1..] == QuoteAll(fs[1..]);
      ScanJoinQuoted(fs[1..], acc + [fs[0]]);
      assert JoinWith(q, ",") == Quote(fs[0]) + ("," + rest);
      ScanQuoted(fs[0], "," + rest, acc);
      assert ("," + rest)[1..] == rest;
      assert acc + [fs[0]] + fs[1..] == acc + fs;
    }
  }

  lemma ParseJoinQuoted(fs: seq<string>)
    requires |fs| >= 1
    ensures Parse(JoinWith(QuoteAll(fs), ",")) == TrimAll(fs)
  {
    ScanJoinQuoted(fs, []);
    assert [] + fs == fs;
  }

  // ---------------------------------------------------------------------
  // `parseCSV`
  // ---------------------------------------------------------------------

  /** `r.length && r.some(x => x !== '')`: the row has a non-empty cell. */
  predicate KeepRow(r: seq<string>)
  {
    |r| > 0 && exists k :: 0 <= k < |r| && r[k] != ""
  }

  /** `lines.map(parseLine)`. */
  function ParseAll(ls: seq<string>): (r: seq<seq<string>>)
    ensures |r| == |ls|
    ensures forall k :: 0 <= k < |ls| ==> r[k] == Parse(ls[k])
  {
    seq(|ls|, k requires 0 <= k < |ls| => Parse(ls[k]))
  }

  /** `lines.map(parseLine).filter(…)`. */
  function RowsOf(ls: seq<string>): (r: seq<seq<string>>)
    ensures forall row :: row in r ==> KeepRow(row)
  {
    Filter(ParseAll(ls), KeepRow)
  }

  /** What `parseCSV(text)` returns. */
  function CsvTable(text: string): Table
  {
    var lines := Lines(text);
    if lines == [] then Table([], []) else Table(Parse(lines[0]), RowsOf(lines[1..]))
  }

  /** `parseCSV`, lines 4-34: the first non-blank line gives the headers,
      the others the rows, without the rows whose cells are all empty. */
  method ParseCsv(text: string) returns (t: Table)
    ensures t == CsvTable(text)
  {
    var lines := Lines(text);
    if |lines| == 0 {
      return Table([], []);
    }
    var headers := ParseLine(lines[0]);
    var rows := ParseRows(lines[1..]);
    t := Table(headers, rows);
  }

  /** `lines.slice(1).map(parseLine).filter(r => r.length && r.some(x => x !== ''))`. */
  method ParseRows(ls: seq<string>) returns (rows: seq<seq<string>>)
    ensures rows == RowsOf(ls)
  {
    rows := [];
    for k := 0 to |ls|
      invariant rows == Filter(ParseAll(ls[..k]), KeepRow)
    {
      var r := ParseLine(ls[k]);
      assert ParseAll(ls[..k + 1]) == ParseAll(ls[..k]) + [r];
      FilterSnoc(ParseAll(ls[..k]), r, KeepRow);
      if KeepRow(r) {
        rows := rows + [r];
      }
    }
    assert ls[..|ls|] == ls;
  }

  /** Rows that each have a non-empty cell are all kept. */
  lemma RowsOfAll(ls: seq<string>)
    requires forall k :: 0 <= k < |ls| ==> KeepRow(Parse(ls[k]))
    ensures RowsOf(ls) == ParseAll(ls)
  {
    FilterAll(ParseAll(ls), KeepRow);
  }

  /** Blank input gives no headers and no rows, and any other input gives
      at least one header. */
  lemma CsvEmpty(text: string)
    ensures CsvTable(text).headers == [] <==> Lines(text) == []
    ensures Lines(text) == [] ==> CsvTable(text).rows == []
  {
    if Lines(text) != [] {
      ScanCount(Lines(text)[0], false, "", []);
    }
  }

  /** Each cell is free of surrounding white space. */
  lemma CsvCellsTrimmed(text: string)
    ensures forall k :: 0 <= k < |CsvTable(text).headers| ==> Trimmed(CsvTable(text).headers[k])
    ensures forall r, k :: r in CsvTable(text).rows && 0 <= k < |r| ==> Trimmed(r[k])
  {
    var lines := Lines(text);
    if lines != [] {
      RowsOfParsed(lines[1..]);
    }
  }

  lemma RowsOfParsed(ls: seq<string>)
    ensures forall r :: r in RowsOf(ls) ==> exists l :: l in ls && r == Parse(l)
  {
    forall r | r in RowsOf(ls)
      ensures exists l :: l in ls && r == Parse(l)
    {
      var k :| 0 <= k < |ls| && ParseAll(ls)[k] == r;
      assert ls[k] in ls;
    }
  }

  /** One CSV line: each cell quoted, joined with commas. */
  function RenderLine(cells: seq<string>): string
  {
    JoinWith(QuoteAll(cells), ",")
  }

  /** Each row rendered. */
  function RenderLines(rows: seq<seq<string>>): (r: seq<string>)
    ensures |r| == |rows|
    ensures forall k :: 0 <= k < |rows| ==> r[k] == RenderLine(rows[k])
  {
    seq(|rows|, k requires 0 <= k < |rows| => RenderLine(rows[k]))
  }

  /** No cell holds a line break. */
  predicate NoBreaks(cells: seq<string>)
  {
    forall k :: 0 <= k < |cells| ==> '\r' !in cells[k] && '\n' !in cells[k]
  }

  /** Rendered lines hold no line break and are not blank, so joined with
      any of the three breaks they come back as the same lines. */
  lemma LinesRendered(all: seq<seq<string>>, sep: string)
    requires IsBreak(sep) && |all| >= 1
    requires forall i :: 0 <= i < |all| ==> |all[i]| >= 1 && NoBreaks(all[i])
    ensures Lines(JoinWith(RenderLines(all), sep)) == RenderLines(all)
  {
    var ls := RenderLines(all);
    forall i | 0 <= i < |ls|
      ensures '\r' !in ls[i] && '\n' !in ls[i] && NonBlank(ls[i])
    {
      RenderNoBreaks(all[i]);
      RenderNonBlank(all[i]);
    }
    NormalizeJoin(ls, sep);
    SplitJoin(ls, '\n');
    FilterAll(ls, NonBlank);
  }

  /** A row that reads back as itself: its cells are trimmed and hold no
      line break, and one of them is not empty. */
  predicate WritableRow(r: seq<string>)
  {
    && NoBreaks(r)
    && (forall k :: 0 <= k < |r| ==> Trimmed(r[k]))
    && KeepRow(r)
  }

  /** Rendered rows that are trimmed and each have a non-empty cell parse
      back as themselves and are all kept. */
  lemma RowsRendered(rows: seq<seq<string>>)
    requires forall i :: 0 <= i < |rows| ==> WritableRow(rows[i])
    ensures RowsOf(RenderLines(rows)) == rows
  {
    var ls := RenderLines(rows);
    forall k | 0 <= k < |ls|
      ensures Parse(ls[k]) == rows[k]
    {
      assert WritableRow(rows[k]);
      ParseJoinQuoted(rows[k]);
      TrimAllTrimmed(rows[k]);
    }
    RowsOfAll(ls);
    assert ParseAll(ls) == rows;
  }

  /** A table whose cells are trimmed and hold no line break, whose rows each
      have a non-empty cell and which has at least one header, written with
      every cell quoted and any of the three line breaks, reads back as
      itself. */
  lemma CsvRoundTrip(headers: seq<string>, rows: seq<seq<string>>, sep: string)
    requires IsBreak(sep)
    requires |headers| >= 1 && NoBreaks(headers) && forall k :: 0 <= k < |headers| ==> Trimmed(headers[k])
    requires forall i :: 0 <= i < |rows| ==> WritableRow(rows[i])
    ensures CsvTable(JoinWith(RenderLines([headers] + rows), sep)) == Table(headers, rows)
  {
    var all := [headers] + rows;
    var ls := RenderLines(all);
    assert forall i :: 0 <= i < |all| ==> |all[i]| >= 1 && NoBreaks(all[i]) by {
      forall i | 0 <= i < |all|
        ensures |all[i]| >= 1 && NoBreaks(all[i])
      {
        if i > 0 { assert all[i] == rows[i - 1] && WritableRow(rows[i - 1]); }
      }
    }
    LinesRendered(all, sep);
    ParseJoinQuoted(headers);
    TrimAllTrimmed(headers);
    RenderLinesTail(headers, rows);
    RowsRendered(rows);
  }

  lemma RenderLinesTail(headers: seq<string>, rows: seq<seq<string>>)
    ensures RenderLines([headers] + rows)[1..] == RenderLines(rows)
  {
    var ls := RenderLines([headers] + rows);
    forall k | 0 <= k < |rows|
      ensures ls[1..][k] == RenderLines(rows)[k]
    {
      assert ([headers] + rows)[k + 1] == rows[k];
    }
  }

  lemma TrimAllTrimmed(cells: seq<string>)
    requires forall k :: 0 <= k < |cells| ==> Trimmed(cells[k])
    ensures TrimAll(cells) == cells
  {
    forall k | 0 <= k < |cells|
      ensures Trim(cells[k]) == cells[k]
    {
      TrimTrimmed(cells[k]);
    }
  }

  /** A rendered line starts with a quote, so it is never blank. */
  lemma RenderNonBlank(cells: seq<string>)
    requires |cells| >= 1
    ensures NonBlank(RenderLine(cells))
  {
    var q := QuoteAll(cells);
    if |cells| == 1 {
      assert RenderLine(cells) == Quote(cells[0]);
    } else {
      assert RenderLine(cells) == Quote(cells[0]) + "," + JoinWith(q[1..], ",");
    }
    assert RenderLine(cells)[0] == '"';
    TrimBlank(RenderLine(cells));
  }

  lemma {:induction false} EscapeNoBreaks(f: string)
    requires '\r' !in f && '\n' !in f
    ensures '\r' !in Escape(f) && '\n' !in Escape(f)
    decreases |f|
  {
    if f != [] {
      EscapeNoBreaks(f[1..]);
    }
  }

  lemma {:induction false} JoinNoBreaks(parts: seq<string>, sep: string)
    requires '\r' !in sep && '\n' !in sep
    requires NoBreaks(parts)
    ensures '\r' !in JoinWith(parts, sep) && '\n' !in JoinWith(parts, sep)
    decreases |parts|
  {
    if |parts| > 1 {
      JoinNoBreaks(parts[1..], sep);
    }
  }

  lemma RenderNoBreaks(cells: seq<string>)
    requires NoBreaks(cells)
    ensures '\r' !in RenderLine(cells) && '\n' !in RenderLine(cells)
  {
    var q := QuoteAll(cells);
    forall k | 0 <= k < |q|
      ensures '\r' !in q[k] && '\n' !in q[k]
    {
      EscapeNoBreaks(cells[k]);
    }
    JoinNoBreaks(q, ",");
  }
}
