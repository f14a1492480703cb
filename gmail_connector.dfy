/**
 * The IMAP mail connector: file names for downloaded mail, the HTML
 * fallback for HTML-only mail, body selection over a MIME tree, login,
 * and the incremental sync driven by a per-folder UID watermark. The IMAP
 * server is a `Session` value recording its replies; a login attempt is a
 * function parameter.
 */
module GmailConnector {
  import opened Wrappers
  import opened Text
  import opened Seqs
  import opened BaseConnector

  // ---------------------------------------------------------------------
  // _safe_filename

  predicate IsAsciiAlnum(c: char)
  {
    'a' <= c <= 'z' || 'A' <= c <= 'Z' || '0' <= c <= '9'
  }

  /** The regular-expression class \w, restricted to ASCII. */
  predicate IsWordChar(c: char)
  {
    IsAsciiAlnum(c) || c == '_'
  }

  /** re.sub(r'[^\w\s-]', '', text) */
  function KeepFilenameChars(s: string): string
  {
    if s == [] then []
    else
      var c := s[|s| - 1];
      KeepFilenameChars(s[..|s| - 1]) + if IsWordChar(c) || IsSpace(c) || c == '-' then [c] else []
  }

  /** Only word characters, whitespace and '-' survive the filter. */
  lemma {:induction false} KeptChars(s: string)
    ensures |KeepFilenameChars(s)| <= |s|
    ensures forall i :: 0 <= i < |KeepFilenameChars(s)| ==>
      var c := KeepFilenameChars(s)[i]; IsWordChar(c) || IsSpace(c) || c == '-'
  {
    if s != [] {
      KeptChars(s[..|s| - 1]);
    }
  }

  /** re.sub(r'\s+', rep, s): every maximal run of whitespace becomes rep. */
  function CollapseSpaces(s: string, rep: char): string
    decreases |s|
  {
    if s == [] then []
    else if IsSpace(s[0]) then
      var rest := LStrip(s);
      assert |rest| < |s|;
      [rep] + CollapseSpaces(rest, rep)
    else
      [s[0]] + CollapseSpaces(s[1..], rep)
  }

  /** Collapsing leaves nothing only for the empty string, and keeps a first non-space character. */
  lemma CollapseFirst(s: string, rep: char)
    ensures CollapseSpaces(s, rep) == [] <==> s == []
    ensures s != [] && !IsSpace(s[0]) ==> CollapseSpaces(s, rep)[0] == s[0]
  {
  }

  /** Every character of the result is rep or a non-space character of s. */
  lemma {:induction false} CollapsedChars(s: string, rep: char)
    ensures forall i :: 0 <= i < |CollapseSpaces(s, rep)| ==>
      CollapseSpaces(s, rep)[i] == rep || (CollapseSpaces(s, rep)[i] in s && !IsSpace(CollapseSpaces(s, rep)[i]))
    decreases |s|
  {
    if s != [] {
      var r := CollapseSpaces(s, rep);
      if IsSpace(s[0]) {
        var rest := LStrip(s);
        CollapsedChars(rest, rep);
        var t := CollapseSpaces(rest, rep);
        assert r == [rep] + t;
        forall i | 0 < i < |r| && r[i] != rep ensures r[i] in s && !IsSpace(r[i]) {
          assert r[i] == t[i - 1];
          var j :| 0 <= j < |rest| && rest[j] == t[i - 1];
          assert s[|s| - |rest| + j] == t[i - 1];
        }
      } else {
        CollapsedChars(s[1..], rep);
        var t := CollapseSpaces(s[1..], rep);
        assert r == [s[0]] + t;
        forall i | 0 < i < |r| && r[i] != rep ensures r[i] in s && !IsSpace(r[i]) {
          assert r[i] == t[i - 1];
          var j :| 0 <= j < |s[1..]| && s[1..][j] == t[i - 1];
          assert s[j + 1] == t[i - 1];
        }
      }
    }
  }

  /** With a whitespace rep, no two whitespace characters are left in a row. */
  lemma {:induction false} CollapsedRuns(s: string, rep: char)
    requires IsSpace(rep)
    ensures forall i :: 0 <= i < |CollapseSpaces(s, rep)| - 1 ==>
      !(IsSpace(CollapseSpaces(s, rep)[i]) && IsSpace(CollapseSpaces(s, rep)[i + 1]))
    decreases |s|
  {
    if s != [] {
      var r := CollapseSpaces(s, rep);
      if IsSpace(s[0]) {
        var rest := LStrip(s);
        CollapsedRuns(rest, rep);
        CollapseFirst(rest, rep);
        var t := CollapseSpaces(rest, rep);
        assert r == [rep] + t;
        assert rest != [] ==> !IsSpace(rest[0]);
        forall i | 0 <= i < |r| - 1 ensures !(IsSpace(r[i]) && IsSpace(r[i + 1])) {
          assert r[i + 1] == t[i];
          if i > 0 {
            assert r[i] == t[i - 1];
          }
        }
      } else {
        CollapsedRuns(s[1..], rep);
        var t := CollapseSpaces(s[1..], rep);
        assert r == [s[0]] + t;
        forall i | 0 <= i < |r| - 1 ensures !(IsSpace(r[i]) && IsSpace(r[i + 1])) {
          assert r[i + 1] == t[i];
          if i > 0 {
            assert r[i] == t[i - 1];
          }
        }
      }
    }
  }

  /** A character a safe file name may hold: no separator, no dot, no whitespace. */
  predicate IsFilenameChar(c: char)
  {
    IsWordChar(c) || c == '-'
  }

  /**
   * _safe_filename: drop everything but word characters, whitespace and
   * '-', strip, turn whitespace runs into '_', and cut to maxLen characters;
   * "no_subject" when nothing is left.
   */
  function SafeFilename(text: string, maxLen: int): string
  {
    var safe := CollapseSpaces(Strip(KeepFilenameChars(text)), '_');
    if safe == [] then "no_subject" else Prefix(safe, maxLen)
  }

  /**
   * A safe file name holds only word characters and '-'; it is "no_subject"
   * when nothing survives the filtering, and otherwise at most maxLen long.
   */
  lemma SafeFilenameProperties(text: string, maxLen: int)
    ensures forall i :: 0 <= i < |SafeFilename(text, maxLen)| ==> IsFilenameChar(SafeFilename(text, maxLen)[i])
    ensures Strip(KeepFilenameChars(text)) == "" ==> SafeFilename(text, maxLen) == "no_subject"
    ensures Strip(KeepFilenameChars(text)) != "" && maxLen >= 0 ==> |SafeFilename(text, maxLen)| <= maxLen
  {
    var safe := CollapseSpaces(Strip(KeepFilenameChars(text)), '_');
    if safe == [] {
      NoSubjectChars();
    } else {
      KeptChars(text);
      SafeChars(KeepFilenameChars(text));
      PrefixChars(safe, maxLen);
    }
  }

  lemma NoSubjectChars()
    ensures forall i :: 0 <= i < |"no_subject"| ==> IsFilenameChar("no_subject"[i])
  {
  }

  /** After stripping and collapsing whitespace runs into '_', only file-name characters are left. */
  lemma SafeChars(kept: string)
    requires forall i :: 0 <= i < |kept| ==> IsWordChar(kept[i]) || IsSpace(kept[i]) || kept[i] == '-'
    ensures forall i :: 0 <= i < |CollapseSpaces(Strip(kept), '_')| ==> IsFilenameChar(CollapseSpaces(Strip(kept), '_')[i])
  {
    var stripped := Strip(kept);
    var safe := CollapseSpaces(stripped, '_');
    CollapsedChars(stripped, '_');
    forall i | 0 <= i < |safe| ensures IsFilenameChar(safe[i]) {
      if safe[i] != '_' {
        assert safe[i] in stripped && !IsSpace(safe[i]);
        StripChars(kept, safe[i]);
      }
    }
  }

  lemma PrefixChars(s: string, n: int)
    requires forall i :: 0 <= i < |s| ==> IsFilenameChar(s[i])
    ensures forall i :: 0 <= i < |Prefix(s, n)| ==> IsFilenameChar(Prefix(s, n)[i])
  {
    var r := Prefix(s, n);
    forall i | 0 <= i < |r| ensures IsFilenameChar(r[i]) {
      assert r[i] == s[i];
    }
  }

  /** Strip only removes characters. */
  lemma StripChars(s: string, c: char)
    requires c in Strip(s)
    ensures c in s
  {
    var l := LStrip(s);
    var r := RStrip(l);
    var j :| 0 <= j < |r| && r[j] == c;
    assert l[j] == c;
    assert s[|s| - |l| + j] == c;
  }

  // ---------------------------------------------------------------------
  // _strip_html

  /** s starts with the lower-case ASCII word p, in any letter case (re.IGNORECASE on ASCII). */
  predicate StartsWithCI(s: string, p: string)
  {
    |p| <= |s| && Lower(s[..|p|]) == p
  }

  /** The leftmost position at or after `from` where p starts, ignoring case. */
  function FindCI(s: string, p: string, from: nat): (r: Option<nat>)
    ensures r.Some? ==> from <= r.value && r.value + |p| <= |s|
    decreases |s| - from
  {
    if from + |p| > |s| then None
    else if StartsWithCI(s[from..], p) then Some(from)
    else FindCI(s, p, from + 1)
  }

  /** FindCI finds the leftmost match at or after `from`, and None means there is none. */
  lemma {:induction false} FindCILeftmost(s: string, p: string, from: nat)
    ensures FindCI(s, p, from).Some? ==> StartsWithCI(s[FindCI(s, p, from).value..], p)
    ensures FindCI(s, p, from).Some? ==> forall i :: from <= i < FindCI(s, p, from).value ==> !StartsWithCI(s[i..], p)
    ensures FindCI(s, p, from).None? ==> forall i :: from <= i <= |s| ==> !StartsWithCI(s[i..], p)
    decreases |s| - from
  {
    if from + |p| <= |s| && !StartsWithCI(s[from..], p) {
      FindCILeftmost(s, p, from + 1);
    }
  }

  /** A case-insensitive match of a word that starts with '<' needs a '<' in the text. */
  lemma {:induction false} NoAngleNoMatch(s: string, p: string, from: nat)
    requires p != [] && p[0] == '<' && '<' !in s
    ensures FindCI(s, p, from).None?
    decreases |s| - from
  {
    if from + |p| <= |s| {
      assert s[from..][0] == s[from];
      assert !StartsWithCI(s[from..], p) by {
        assert Lower(s[from..][..|p|])[0] == LowerChar(s[from]);
      }
      NoAngleNoMatch(s, p, from + 1);
    }
  }

  /**
   * re.sub(r"<TAG[^>]*>.*?</TAG>", "", s, flags=DOTALL|IGNORECASE). The
   * leftmost "<TAG" decides: its first following '>' closes the opening
   * tag and the first following "</TAG>" ends the block. When either is
   * missing, no later "<TAG" can match either.
   */
  function RemoveBlocks(s: string, open: string, close: string): string
    requires open != "" && close != ""
    decreases |s|
  {
    match FindCI(s, open, 0)
    case None => s
    case Some(i) =>
      var gt := FindChar(s[i + |open|..], '>');
      if gt < 0 then s
      else
        match FindCI(s, close, i + |open| + gt + 1)
        case None => s
        case Some(k) => s[..i] + RemoveBlocks(s[k + |close|..], open, close)
  }

  /** Position p of s starts a match of <[^>]+> : a '<', then at least one character before the next '>'. */
  predicate TagAt(s: string, p: int)
  {
    0 <= p && p + 1 < |s| && s[p] == '<' && s[p + 1] != '>' && '>' in s[p + 1..]
  }

  lemma TagAtShift(a: string, b: string, p: int)
    requires 0 <= p < |b|
    ensures TagAt(a + b, |a| + p) <==> TagAt(b, p)
  {
    var s := a + b;
    if |a| + p + 1 < |s| {
      assert s[|a| + p + 1..] == b[p + 1..];
    }
  }

  /** When the first '<' has no '>' after it, no position starts a tag. */
  lemma NoCloseNoTag(s: string, i: nat)
    requires i < |s| && s[i] == '<' && '<' !in s[..i]
    requires '>' !in s[i + 1..]
    ensures forall p :: 0 <= p < |s| ==> !TagAt(s, p)
  {
    forall p | 0 <= p < |s| ensures !TagAt(s, p) {
      if p < i {
        assert s[..i][p] == s[p];
      } else if p + 1 < |s| {
        assert s[p + 1..] == s[i + 1..][p - i..];
      }
    }
  }

  /** A prefix without a tag start, followed by a string without tags, has no tag. */
  lemma NoTagAfter(a: string, t: string)
    requires forall p :: 0 <= p < |a| ==> a[p] != '<' || (p + 1 < |a| && a[p + 1] == '>')
    requires forall p :: 0 <= p < |t| ==> !TagAt(t, p)
    ensures forall p :: 0 <= p < |a + t| ==> !TagAt(a + t, p)
  {
    forall p | 0 <= p < |a + t| ensures !TagAt(a + t, p) {
      if p >= |a| {
        assert !TagAt(t, p - |a|);
        TagAtShift(a, t, p - |a|);
      } else if a[p] == '<' {
        assert (a + t)[p + 1] == a[p + 1] == '>';
      } else {
        assert (a + t)[p] == a[p];
      }
    }
  }

  /** re.sub(r"<[^>]+>", " ", s): each tag becomes one space. */
  function ReplaceTags(s: string): string
    decreases |s|, 1
  {
    var i := FindChar(s, '<');
    if i < 0 then s else ReplaceTagAt(s, i, FindChar(s[i + 1..], '>'))
  }

  /**
   * The rest of the substitution once the first '<' is at i and the first
   * '>' after it is gt characters further on (-1 when there is none):
   * without a '>' nothing more matches; "<>" is no tag and is kept.
   */
  function ReplaceTagAt(s: string, i: nat, gt: int): string
    requires i < |s| && -1 <= gt < |s| - i - 1
    decreases |s|, 0
  {
    if gt < 0 then s
    else if gt == 0 then s[..i + 2] + ReplaceTags(s[i + 2..])
    else s[..i] + " " + ReplaceTags(s[i + gt + 2..])
  }

  lemma ReplaceTagsFirst(s: string, i: nat, gt: int)
    requires FindChar(s, '<') == i && FindChar(s[i + 1..], '>') == gt
    ensures ReplaceTags(s) == ReplaceTagAt(s, i, gt)
  {
  }

  lemma ReplaceTagAtSpace(s: string, i: nat, gt: int)
    requires i < |s| && 0 < gt < |s| - i - 1
    ensures ReplaceTagAt(s, i, gt) == s[..i] + " " + ReplaceTags(s[i + gt + 2..])
  {
  }

  lemma ReplaceTagAtEmpty(s: string, i: nat)
    requires i + 1 < |s|
    ensures ReplaceTagAt(s, i, 0) == s[..i + 2] + ReplaceTags(s[i + 2..])
  {
  }

  /** No tag is left behind, and text without '<' is unchanged. */
  lemma {:induction false} ReplaceTagsNoTag(s: string)
    ensures '<' !in s ==> ReplaceTags(s) == s
    ensures forall p :: 0 <= p < |ReplaceTags(s)| ==> !TagAt(ReplaceTags(s), p)
    decreases |s|
  {
    var i := FindChar(s, '<');
    if i < 0 {
      assert ReplaceTags(s) == s;
      forall p | 0 <= p < |s| ensures !TagAt(s, p) {
        assert s[p] in s;
      }
    } else {
      var gt := FindChar(s[i + 1..], '>');
      ReplaceTagsFirst(s, i, gt);
      if gt < 0 {
        NoCloseNoTag(s, i);
      } else if gt == 0 {
        ReplaceTagAtEmpty(s, i);
        var a := s[..i + 2];
        assert a[i + 1] == s[i + 1..][0];
        ReplaceTagsNoTag(s[i + 2..]);
        NoTagAfter(a, ReplaceTags(s[i + 2..]));
      } else {
        ReplaceTagAtSpace(s, i, gt);
        var a := s[..i] + " ";
        assert s[..i] + " " + ReplaceTags(s[i + gt + 2..]) == a + ReplaceTags(s[i + gt + 2..]);
        ReplaceTagsNoTag(s[i + gt + 2..]);
        NoTagAfter(a, ReplaceTags(s[i + gt + 2..]));
      }
    }
  }

  /** Only ' ' is whitespace, never two in a row, and none at either end. */
  predicate Normalized(s: string)
  {
    && (forall i :: 0 <= i < |s| && IsSpace(s[i]) ==> s[i] == ' ')
    && (forall i :: 0 <= i < |s| - 1 ==> !(IsSpace(s[i]) && IsSpace(s[i + 1])))
    && (s == [] || (!IsSpace(s[0]) && !IsSpace(s[|s| - 1])))
  }

  /** Stripping a string whose whitespace is single spaces leaves it normalized. */
  lemma StripNormalizes(s: string)
    requires forall i :: 0 <= i < |s| && IsSpace(s[i]) ==> s[i] == ' '
    requires forall i :: 0 <= i < |s| - 1 ==> !(IsSpace(s[i]) && IsSpace(s[i + 1]))
    ensures Normalized(Strip(s))
  {
    var l := LStrip(s);
    var r := RStrip(l);
    var d := |s| - |l|;
    forall i | 0 <= i < |r| - 1 ensures !(IsSpace(r[i]) && IsSpace(r[i + 1])) {
      assert r[i] == s[d + i] && r[i + 1] == s[d + i + 1];
    }
    forall i | 0 <= i < |r| && IsSpace(r[i]) ensures r[i] == ' ' {
      assert r[i] == s[d + i];
    }
  }

  /**
   * _strip_html: drop style and script blocks, turn the remaining tags into
   * spaces, decode four entities, and normalise whitespace.
   */
  function StripHtml(html: string): string
  {
    var noStyle := RemoveBlocks(html, "<style", "</style>");
    var noScript := RemoveBlocks(noStyle, "<script", "</script>");
    var noTags := ReplaceTags(noScript);
    var decoded := ReplaceAll(ReplaceAll(ReplaceAll(ReplaceAll(noTags, "&nbsp;", " "), "&amp;", "&"), "&lt;", "<"), "&gt;", ">");
    Strip(CollapseSpaces(decoded, ' '))
  }

  /** The text _strip_html gives has only single spaces between words and none at either end. */
  lemma StripHtmlNormalized(html: string)
    ensures Normalized(StripHtml(html))
  {
    var noStyle := RemoveBlocks(html, "<style", "</style>");
    var noScript := RemoveBlocks(noStyle, "<script", "</script>");
    var noTags := ReplaceTags(noScript);
    var decoded := ReplaceAll(ReplaceAll(ReplaceAll(ReplaceAll(noTags, "&nbsp;", " "), "&amp;", "&"), "&lt;", "<"), "&gt;", ">");
    CollapsedChars(decoded, ' ');
    CollapsedRuns(decoded, ' ');
    StripNormalizes(CollapseSpaces(decoded, ' '));
  }

  lemma ReplaceAllAbsent(s: string, pat: string, rep: string)
    requires pat != "" && pat[0] !in s
    ensures ReplaceAll(s, pat, rep) == s
    decreases |s|
  {
    if s != [] {
      assert !StartsWith(s, pat);
      ReplaceAllAbsent(s[1..], pat, rep);
    }
  }

  lemma {:induction false} CollapseNormalized(s: string)
    requires forall i :: 0 <= i < |s| && IsSpace(s[i]) ==> s[i] == ' '
    requires forall i :: 0 <= i < |s| - 1 ==> !(IsSpace(s[i]) && IsSpace(s[i + 1]))
    ensures CollapseSpaces(s, ' ') == s
    decreases |s|
  {
    if s != [] {
      if IsSpace(s[0]) {
        assert |s| > 1 ==> !IsSpace(s[1]);
        assert LStrip(s) == s[1..] by {
          assert |s| > 1 ==> LStrip(s[1..]) == s[1..];
        }
      }
      CollapseNormalized(s[1..]);
    }
  }

  /** Text with no markup and normalised whitespace passes through unchanged. */
  lemma StripHtmlKeepsPlainText(s: string)
    requires '<' !in s && '&' !in s && Normalized(s)
    ensures StripHtml(s) == s
  {
    NoAngleNoMatch(s, "<style", 0);
    NoAngleNoMatch(s, "<script", 0);
    ReplaceAllAbsent(s, "&nbsp;", " ");
    ReplaceAllAbsent(s, "&amp;", "&");
    ReplaceAllAbsent(s, "&lt;", "<");
    ReplaceAllAbsent(s, "&gt;", ">");
    CollapseNormalized(s);
    StripNoEdgeSpace(s);
  }

  // ---------------------------------------------------------------------
  // _extract_body

  /**
   * A MIME message as the email library parses it. A leaf's payload is
   * None when decoding it raises; the headers are already decoded.
   */
  datatype Mime =
    | Leaf(contentType: string, disposition: string, payload: Option<string>)
    | Multipart(contentType: string, disposition: string, parts: seq<Mime>)

  /** msg.walk(): the message itself, then its parts depth first. */
  function Walk(m: Mime): seq<Mime>
    decreases m, 1
  {
    [m] + if m.Multipart? then WalkAll(m.parts) else []
  }

  function WalkAll(ps: seq<Mime>): seq<Mime>
    decreases ps, 0
  {
    if ps == [] then [] else Walk(ps[0]) + WalkAll(ps[1..])
  }

  lemma {:induction false} WalkAllSnoc(ps: seq<Mime>, m: Mime)
    ensures WalkAll(ps + [m]) == WalkAll(ps) + Walk(m)
  {
    if ps == [] {
      assert WalkAll([m]) == Walk(m) + WalkAll([]);
    } else {
      assert (ps + [m])[1..] == ps[1..] + [m];
      WalkAllSnoc(ps[1..], m);
    }
  }

  predicate IsAttachment(part: Mime)
  {
    Contains(part.disposition, "attachment")
  }

  /** The walk visits `part` and it contributes decoded text of type ct. */
  predicate Collected(part: Mime, ct: string)
  {
    part.Leaf? && !IsAttachment(part) && part.contentType == ct && part.payload.Some?
  }

  /** The decoded payloads of the non-attachment parts of type ct, in walk order. */
  function Texts(nodes: seq<Mime>, ct: string): seq<string>
  {
    if nodes == [] then []
    else (if Collected(nodes[0], ct) then [nodes[0].payload.value] else []) + Texts(nodes[1..], ct)
  }

  /** No text is collected exactly when no node is a non-attachment part of type ct with a payload. */
  lemma {:induction false} TextsEmpty(nodes: seq<Mime>, ct: string)
    ensures Texts(nodes, ct) == [] <==> forall i :: 0 <= i < |nodes| ==> !Collected(nodes[i], ct)
  {
    if nodes != [] {
      TextsEmpty(nodes[1..], ct);
      assert forall i :: 1 <= i < |nodes| ==> nodes[i] == nodes[1..][i - 1];
    }
  }

  lemma {:induction false} TextsConcat(a: seq<Mime>, b: seq<Mime>, ct: string)
    ensures Texts(a + b, ct) == Texts(a, ct) + Texts(b, ct)
  {
    if a != [] {
      assert (a + b)[1..] == a[1..] + b;
      TextsConcat(a[1..], b, ct);
    } else {
      assert a + b == b;
    }
  }

  /**
   * _extract_body: for a multipart message the plain-text parts joined by
   * newlines, else the HTML parts joined and stripped, else ""; for a
   * single part its payload, stripped when it is HTML.
   */
  function ExtractBody(m: Mime): (r: string)
    ensures m.Leaf? && m.payload.None? ==> r == ""
    ensures m.Leaf? && m.payload.Some? && m.contentType != "text/html" ==> r == m.payload.value
  {
    if m.Multipart? then
      var nodes := Walk(m);
      var plain := Texts(nodes, "text/plain");
      var html := Texts(nodes, "text/html");
      if plain != [] then Join(plain, "\n")
      else if html != [] then StripHtml(Join(html, "\n"))
      else ""
    else
      match m.payload
      case None => ""
      case Some(p) => if m.contentType == "text/html" then StripHtml(p) else p
  }

  /** The texts of a multipart node come from its parts only. */
  lemma TextsOfMultipart(m: Mime, kind: string)
    requires m.Multipart?
    ensures Texts(Walk(m), kind) == Texts(WalkAll(m.parts), kind)
  {
    assert Walk(m) == [m] + WalkAll(m.parts);
    TextsConcat([m], WalkAll(m.parts), kind);
    assert Texts([m], kind) == [];
  }

  lemma WalkMultipartSnoc(ct: string, d: string, parts: seq<Mime>, extra: Mime, kind: string)
    ensures Texts(Walk(Multipart(ct, d, parts + [extra])), kind)
         == Texts(Walk(Multipart(ct, d, parts)), kind) + Texts(Walk(extra), kind)
  {
    TextsOfMultipart(Multipart(ct, d, parts + [extra]), kind);
    TextsOfMultipart(Multipart(ct, d, parts), kind);
    WalkAllSnoc(parts, extra);
    TextsConcat(WalkAll(parts), Walk(extra), kind);
  }

  /** A leaf walks to itself alone. */
  lemma TextsOfLeaf(m: Mime, kind: string)
    requires m.Leaf?
    ensures Texts(Walk(m), kind) == if Collected(m, kind) then [m.payload.value] else []
  {
    assert Walk(m) == [m];
  }

  /** A part marked as an attachment never changes the body of a multipart message. */
  lemma AttachmentIgnored(ct: string, d: string, parts: seq<Mime>, a: Mime)
    requires a.Leaf? && IsAttachment(a)
    ensures ExtractBody(Multipart(ct, d, parts + [a])) == ExtractBody(Multipart(ct, d, parts))
  {
    var m0, m1 := Multipart(ct, d, parts), Multipart(ct, d, parts + [a]);
    WalkMultipartSnoc(ct, d, parts, a, "text/plain");
    WalkMultipartSnoc(ct, d, parts, a, "text/html");
    TextsOfLeaf(a, "text/plain");
    TextsOfLeaf(a, "text/html");
    assert Texts(Walk(m1), "text/plain") == Texts(Walk(m0), "text/plain");
    assert Texts(Walk(m1), "text/html") == Texts(Walk(m0), "text/html");
  }

  /** Once a plain-text part exists, adding an HTML part does not change the body. */
  lemma PlainPreferredOverHtml(ct: string, d: string, parts: seq<Mime>, h: Mime)
    requires h.Leaf? && h.contentType == "text/html"
    requires Texts(Walk(Multipart(ct, d, parts)), "text/plain") != []
    ensures ExtractBody(Multipart(ct, d, parts + [h])) == ExtractBody(Multipart(ct, d, parts))
  {
    var m0, m1 := Multipart(ct, d, parts), Multipart(ct, d, parts + [h]);
    WalkMultipartSnoc(ct, d, parts, h, "text/plain");
    TextsOfLeaf(h, "text/plain");
    assert Texts(Walk(m1), "text/plain") == Texts(Walk(m0), "text/plain");
  }

  /** With no plain-text part, the body is the stripped HTML. */
  lemma HtmlFallback(m: Mime)
    requires m.Multipart?
    requires Texts(Walk(m), "text/plain") == [] && Texts(Walk(m), "text/html") != []
    ensures ExtractBody(m) == StripHtml(Join(Texts(Walk(m), "text/html"), "\n"))
    ensures Normalized(ExtractBody(m))
  {
    StripHtmlNormalized(Join(Texts(Walk(m), "text/html"), "\n"));
  }

  // ---------------------------------------------------------------------
  // GmailConnector.authenticate

  /** The outcome of connecting to the server and logging in: an IMAP error, or any other failure. */
  datatype LoginOutcome = LoginOk | ImapRejected(reason: string) | ConnectFailed(reason: string)

  /** One connection attempt with (server, email, password). */
  type Login = (string, string, string) -> LoginOutcome

  const RequiredCredentials: seq<string> := ["imap_server", "email", "password"]

  /** The position of the first required key that is missing. */
  function FirstMissing(creds: map<string, string>, keys: seq<string>): (r: Option<nat>)
    ensures r.Some? ==> r.value < |keys| && keys[r.value] !in creds
    ensures r.Some? ==> forall j :: 0 <= j < r.value ==> keys[j] in creds
    ensures r.None? <==> forall j :: 0 <= j < |keys| ==> keys[j] in creds
  {
    if keys == [] then None
    else if keys[0] !in creds then Some(0)
    else
      match FirstMissing(creds, keys[1..])
      case None => None
      case Some(j) => Some(j + 1)
  }

  /**
   * authenticate: a missing key fails with its name; otherwise one login
   * attempt decides. Only a successful login stores the credentials.
   */
  method Authenticate(c: Connector, creds: map<string, string>, login: Login) returns (ok: bool)
    modifies c
    ensures FirstMissing(creds, RequiredCredentials).Some? ==>
      var key := RequiredCredentials[FirstMissing(creds, RequiredCredentials).value];
      !ok && c.status == Error && c.lastError == Some("Missing credential: " + key) && c.credentials == old(c.credentials)
    ensures FirstMissing(creds, RequiredCredentials).None? <==> "imap_server" in creds && "email" in creds && "password" in creds
    ensures "imap_server" in creds && "email" in creds && "password" in creds ==>
      var outcome := login(creds["imap_server"], creds["email"], creds["password"]);
      && (ok <==> outcome.LoginOk?)
      && (outcome.LoginOk? ==> c.status == Authenticated && c.lastError.None? && c.credentials == Some(creds))
      && (outcome.ImapRejected? ==>
            c.status == Error && c.lastError == Some("IMAP auth failed: " + outcome.reason) && c.credentials == old(c.credentials))
      && (outcome.ConnectFailed? ==>
            c.status == Error && c.lastError == Some("Connection failed: " + outcome.reason) && c.credentials == old(c.credentials))
    ensures c.lastSync == old(c.lastSync) && c.itemsSynced == old(c.itemsSynced)
  {
    for i := 0 to |RequiredCredentials|
      invariant forall j :: 0 <= j < i ==> RequiredCredentials[j] in creds
    {
      var key := RequiredCredentials[i];
      if key !in creds {
        c.lastError := Some("Missing credential: " + key);
        c.status := Error;
        return false;
      }
    }
    assert RequiredCredentials[0] in creds && RequiredCredentials[1] in creds && RequiredCredentials[2] in creds;
    var outcome := login(creds["imap_server"], creds["email"], creds["password"]);
    match outcome {
      case LoginOk =>
        c.credentials := Some(creds);
        c.status := Authenticated;
        c.lastError := None;
        ok := true;
      case ImapRejected(e) =>
        c.lastError := Some("IMAP auth failed: " + e);
        c.status := Error;
        ok := false;
      case ConnectFailed(e) =>
        c.lastError := Some("Connection failed: " + e);
        c.status := Error;
        ok := false;
    }
  }

  // ---------------------------------------------------------------------
  // GmailConnector.sync

  const MaxEmailsPerSync: nat := 200
  const Folders: seq<string> := ["INBOX", "[Gmail]/Sent Mail"]

  /** A fetched message, its headers already decoded. */
  datatype Email = Email(subject: string, sender: string, recipient: string, date: string, body: Mime)

  /** The server's replies during one sync session. */
  datatype FetchReply = FetchNotOk | FetchRaises(reason: string) | Fetched(mail: Email)
  datatype SelectReply = SelectOk | SelectNotOk | SelectRaises
  datatype SearchReply = SearchNotOk | SearchRaises(reason: string) | SearchOk(uids: seq<nat>)
  datatype FolderReply = FolderReply(select: SelectReply, search: SearchReply, fetch: map<nat, FetchReply>)
  datatype Session = Session(loginError: Option<string>, folders: map<string, FolderReply>, logoutError: Option<string>)

  /** A folder the session has no reply for cannot be selected; a UID with no reply is not OK. */
  const NoReply: FolderReply := FolderReply(SelectNotOk, SearchNotOk, map[])

  datatype SyncResult = SyncResult(newItems: nat, totalItems: nat, errors: seq<string>)

  function Max(a: nat, b: nat): nat
  {
    if a < b then b else a
  }

  /** The UIDs strictly above the watermark, in server order, at most 200 of them. */
  function NewUids(uids: seq<nat>, last: nat): seq<nat>
  {
    Prefix(Filter(uids, (u: nat) => u > last), MaxEmailsPerSync)
  }

  /** At most 200 UIDs, each above the watermark and from the server's list; all of them when fewer than 200. */
  lemma NewUidsProperties(uids: seq<nat>, last: nat)
    ensures |NewUids(uids, last)| <= MaxEmailsPerSync
    ensures forall i :: 0 <= i < |NewUids(uids, last)| ==> NewUids(uids, last)[i] > last && NewUids(uids, last)[i] in uids
    ensures |NewUids(uids, last)| < MaxEmailsPerSync ==>
      forall i :: 0 <= i < |uids| && uids[i] > last ==> uids[i] in NewUids(uids, last)
  {
    var all := Filter(uids, (u: nat) => u > last);
    var r := NewUids(uids, last);
    assert r == all[..|r|];
    forall i | 0 <= i < |r| ensures r[i] > last && r[i] in uids {
      assert r[i] == all[i];
    }
    if |r| < MaxEmailsPerSync {
      assert r == all;
    }
  }

  /** The .txt file a message is saved as: "<uid>_<safe subject>.txt". */
  function MailFileName(uid: nat, m: Email): string
  {
    NatToString(uid) + "_" + SafeFilename(m.subject, 80) + ".txt"
  }

  function MailContent(m: Email, folder: string): string
  {
    Join(["Subject: " + m.subject, "From: " + m.sender, "To: " + m.recipient, "Date: " + m.date,
          "Folder: " + folder, "", ExtractBody(m.body)], "\n")
  }

  /** The message of the exception opening a file in a directory that does not exist. */
  function WriteError(dir: string, name: string): string
  {
    "[Errno 2] No such file or directory: '" + PathJoin(dir, name) + "'"
  }

  function UidError(uid: nat, reason: string): string
  {
    "UID " + NatToString(uid) + ": " + reason
  }

  /** A message saved by the sync: its UID, the message, and the folder it came from. */
  datatype Saved = Saved(uid: nat, mail: Email, folder: string)

  /**
   * The file a saved message is written as: its name and its content. The
   * fetch and folder loops take it as a parameter; the sync passes MailFile.
   */
  type FileOf = Saved -> (string, string)

  /** "<uid>_<safe subject>.txt", holding the headers, the folder and the body. */
  function MailFile(s: Saved): (string, string)
  {
    (MailFileName(s.uid, s.mail), MailContent(s.mail, s.folder))
  }

  /** What the per-UID loop of one folder has done so far. */
  datatype FolderRun = FolderRun(maxUid: nat, written: seq<Saved>, newItems: nat, errors: seq<string>)

  /**
   * The fetch loop over one folder's UIDs. A reply that is not OK is
   * skipped, a failure is recorded and the loop goes on, and a saved
   * message raises the folder's high-water mark.
   */
  function FetchUids(uids: seq<nat>, fetch: map<nat, FetchReply>, folder: string, last: nat, dir: string, canWrite: bool, file: FileOf)
    : FolderRun
    decreases |uids|
  {
    if uids == [] then FolderRun(last, [], 0, [])
    else FetchStep(FetchUids(uids[..|uids| - 1], fetch, folder, last, dir, canWrite, file), uids[|uids| - 1], fetch, folder, dir, canWrite, file)
  }

  /** One UID of the fetch loop. */
  function FetchStep(r: FolderRun, u: nat, fetch: map<nat, FetchReply>, folder: string, dir: string, canWrite: bool, file: FileOf): FolderRun
  {
    match Get(fetch, u, FetchNotOk)
    case FetchNotOk => r
    case FetchRaises(e) => r.(errors := r.errors + [UidError(u, e)])
    case Fetched(m) =>
      if canWrite then FolderRun(Max(r.maxUid, u), r.written + [Saved(u, m, folder)], r.newItems + 1, r.errors)
      else r.(errors := r.errors + [UidError(u, WriteError(dir, file(Saved(u, m, folder)).0))])
  }

  /**
   * The fetch loop counts what it saves; the watermark never goes down, it
   * covers every message saved, and it only ever takes the UID of a saved
   * message; nothing is saved when the items folder is missing; and each
   * failed fetch leaves its error in the list.
   */
  lemma {:induction false} FetchUidsProperties(uids: seq<nat>, fetch: map<nat, FetchReply>, folder: string, last: nat, dir: string, canWrite: bool, file: FileOf)
    ensures var r := FetchUids(uids, fetch, folder, last, dir, canWrite, file);
      && r.newItems == |r.written| <= |uids|
      && r.maxUid >= last
      && (canWrite ==> forall i :: 0 <= i < |uids| && Get(fetch, uids[i], FetchNotOk).Fetched? ==> r.maxUid >= uids[i])
      && (r.maxUid != last ==> exists i :: 0 <= i < |uids| && uids[i] == r.maxUid && Get(fetch, uids[i], FetchNotOk).Fetched?)
      && (!canWrite ==> r.maxUid == last && r.written == [])
      && (forall i :: 0 <= i < |uids| && Get(fetch, uids[i], FetchNotOk).FetchRaises? ==>
            UidError(uids[i], Get(fetch, uids[i], FetchNotOk).reason) in r.errors)
    decreases |uids|
  {
    if uids != [] {
      var init := uids[..|uids| - 1];
      var u := uids[|uids| - 1];
      FetchUidsProperties(init, fetch, folder, last, dir, canWrite, file);
      var r := FetchUids(init, fetch, folder, last, dir, canWrite, file);
      FetchStepProperties(r, u, fetch, folder, dir, canWrite, file);
      assert forall i :: 0 <= i < |init| ==> uids[i] == init[i];
      assert forall i :: 0 <= i < |uids| ==> i < |init| || uids[i] == u;
    }
  }

  lemma FetchStepProperties(r: FolderRun, u: nat, fetch: map<nat, FetchReply>, folder: string, dir: string, canWrite: bool, file: FileOf)
    ensures var r' := FetchStep(r, u, fetch, folder, dir, canWrite, file);
      && |r'.written| >= |r.written| && r'.written[..|r.written|] == r.written
      && r'.newItems == r.newItems + |r'.written| - |r.written| && |r'.written| <= |r.written| + 1
      && r'.maxUid >= r.maxUid
      && (canWrite && Get(fetch, u, FetchNotOk).Fetched? ==> r'.maxUid >= u)
      && (r'.maxUid == r.maxUid || (r'.maxUid == u && Get(fetch, u, FetchNotOk).Fetched?))
      && (!canWrite ==> r'.maxUid == r.maxUid && r'.written == r.written)
      && (forall e :: e in r.errors ==> e in r'.errors)
      && (Get(fetch, u, FetchNotOk).FetchRaises? ==> UidError(u, Get(fetch, u, FetchNotOk).reason) in r'.errors)
  {
  }

  /** The files of a directory after writing `written` in order; a later write of a name replaces an earlier one. */
  function WriteAll(files: map<string, string>, written: seq<(string, string)>): (r: map<string, string>)
    ensures forall i :: 0 <= i < |written| ==> written[i].0 in r
    ensures forall f :: f in files ==> f in r
  {
    if written == [] then files
    else
      var last := written[|written| - 1];
      WriteAll(files, written[..|written| - 1])[last.0 := last.1]
  }

  /** What the sync has done so far; `failure` is the exception that ended it early. */
  datatype SyncRun = SyncRun(watermarks: map<string, nat>, written: seq<Saved>, newItems: nat,
                             errors: seq<string>, failure: Option<string>)

  /** One folder of the sync: select, search above the watermark, fetch, and record the new watermark. */
  function FolderStep(run: SyncRun, folder: string, session: Session, dir: string, canWrite: bool, file: FileOf): SyncRun
  {
    if run.failure.Some? then run
    else
      var reply := Get(session.folders, folder, NoReply);
      if !reply.select.SelectOk? then run
      else
        match reply.search
        case SearchNotOk => run
        case SearchRaises(e) => run.(errors := run.errors + [e], failure := Some(e))
        case SearchOk(uids) =>
          if uids == [] then run
          else
            var last := Get(run.watermarks, folder, 0);
            var f := FetchUids(NewUids(uids, last), reply.fetch, folder, last, dir, canWrite, file);
            SyncRun(run.watermarks[folder := f.maxUid], run.written + f.written, run.newItems + f.newItems,
                    run.errors + f.errors, None)
  }

  /**
   * After an exception a folder changes nothing; otherwise no watermark
   * goes down or is dropped, only this folder's may change, and nothing
   * is saved when the items folder is missing.
   */
  lemma FolderStepProperties(run: SyncRun, folder: string, session: Session, dir: string, canWrite: bool, file: FileOf)
    ensures var r := FolderStep(run, folder, session, dir, canWrite, file);
      && (run.failure.Some? ==> r == run)
      && (forall f :: f in run.watermarks ==> f in r.watermarks && r.watermarks[f] >= run.watermarks[f])
      && (forall f :: f in r.watermarks && f != folder ==> f in run.watermarks && r.watermarks[f] == run.watermarks[f])
      && (!canWrite ==> r.written == run.written)
  {
    var reply := Get(session.folders, folder, NoReply);
    if run.failure.None? && reply.select.SelectOk? && reply.search.SearchOk? && reply.search.uids != [] {
      var last := Get(run.watermarks, folder, 0);
      FetchUidsProperties(NewUids(reply.search.uids, last), reply.fetch, folder, last, dir, canWrite, file);
    }
  }

  function SyncFolders(folders: seq<string>, start: SyncRun, session: Session, dir: string, canWrite: bool, file: FileOf): SyncRun
  {
    if folders == [] then start
    else FolderStep(SyncFolders(folders[..|folders| - 1], start, session, dir, canWrite, file), folders[|folders| - 1], session, dir, canWrite, file)
  }

  /** The whole session after login: both folders, then logout. */
  function SyncSpec(w0: map<string, nat>, session: Session, dir: string, canWrite: bool, file: FileOf): SyncRun
  {
    var run := SyncFolders(Folders, SyncRun(w0, [], 0, [], None), session, dir, canWrite, file);
    if run.failure.None? && session.logoutError.Some? then
      run.(errors := run.errors + [session.logoutError.value], failure := session.logoutError)
    else run
  }

  /** Once an exception has ended the sync, the remaining folders change nothing. */
  lemma {:induction false} FailureEndsSync(folders: seq<string>, k: nat, start: SyncRun, session: Session, dir: string, canWrite: bool, file: FileOf)
    requires k <= |folders|
    requires SyncFolders(folders[..k], start, session, dir, canWrite, file).failure.Some?
    ensures SyncFolders(folders, start, session, dir, canWrite, file) == SyncFolders(folders[..k], start, session, dir, canWrite, file)
    decreases |folders|
  {
    if k < |folders| {
      var init := folders[..|folders| - 1];
      assert init[..k] == folders[..k];
      FailureEndsSync(init, k, start, session, dir, canWrite, file);
    } else {
      assert folders[..k] == folders;
    }
  }

  /** Watermarks never go down, and a folder's watermark is never dropped. */
  lemma {:induction false} WatermarksNeverDecrease(folders: seq<string>, start: SyncRun, session: Session, dir: string, canWrite: bool, file: FileOf)
    ensures forall f :: f in start.watermarks ==>
      f in SyncFolders(folders, start, session, dir, canWrite, file).watermarks
      && SyncFolders(folders, start, session, dir, canWrite, file).watermarks[f] >= start.watermarks[f]
  {
    if folders != [] {
      WatermarksNeverDecrease(folders[..|folders| - 1], start, session, dir, canWrite, file);
      FolderStepProperties(SyncFolders(folders[..|folders| - 1], start, session, dir, canWrite, file), folders[|folders| - 1], session, dir, canWrite, file);
    }
  }

  /** The sync only ever sets the watermarks of the two folders it visits. */
  lemma {:induction false} OnlyVisitedFoldersChange(folders: seq<string>, start: SyncRun, session: Session, dir: string, canWrite: bool, file: FileOf)
    ensures forall f :: f in SyncFolders(folders, start, session, dir, canWrite, file).watermarks && f !in folders ==>
      f in start.watermarks && SyncFolders(folders, start, session, dir, canWrite, file).watermarks[f] == start.watermarks[f]
  {
    if folders != [] {
      OnlyVisitedFoldersChange(folders[..|folders| - 1], start, session, dir, canWrite, file);
      FolderStepProperties(SyncFolders(folders[..|folders| - 1], start, session, dir, canWrite, file), folders[|folders| - 1], session, dir, canWrite, file);
    }
  }

  /** A session whose every select and search fails, or without messages above the watermarks, saves nothing new. */
  lemma NothingNewWhenNoFolder(w0: map<string, nat>, dir: string, canWrite: bool, file: FileOf)
    ensures SyncSpec(w0, Session(None, map[], None), dir, canWrite, file) == SyncRun(w0, [], 0, [], None)
  {
    var s := Session(None, map[], None);
    var start := SyncRun(w0, [], 0, [], None);
    assert Folders[..1] == ["INBOX"] && Folders[..2] == Folders;
    assert SyncFolders(Folders[..1], start, s, dir, canWrite, file) == start by {
      assert Folders[..1][..0] == [];
    }
  }

  /** The disk after the messages in `written` were saved to dir (when it exists). */
  function FoldersAfter(folders: map<string, map<string, string>>, dir: string, file: FileOf, written: seq<Saved>)
    : map<string, map<string, string>>
  {
    if dir in folders then folders[dir := WriteAll(folders[dir], Files(written, file))] else folders
  }

  /** The per-UID loop of one folder, writing each message to the items folder. */
  method FetchFolder(c: Connector, uids: seq<nat>, fetch: map<nat, FetchReply>, folder: string, last: nat, file: FileOf)
    returns (maxUid: nat, newItems: nat, errors: seq<string>)
    modifies c.disk
    ensures var f := FetchUids(uids, fetch, folder, last, c.ItemsPath(), c.ItemsPath() in old(c.disk.folders), file);
      && maxUid == f.maxUid && newItems == f.newItems && errors == f.errors
      && c.disk.folders == FoldersAfter(old(c.disk.folders), c.ItemsPath(), file, f.written)
    ensures c.disk.states == old(c.disk.states)
  {
    var dir := c.ItemsPath();
    ghost var canWrite := dir in c.disk.folders;
    ghost var written: seq<Saved> := [];
    maxUid, newItems, errors := last, 0, [];
    for k := 0 to |uids|
      invariant FetchUids(uids[..k], fetch, folder, last, dir, canWrite, file) == FolderRun(maxUid, written, newItems, errors)
      invariant c.disk.folders == FoldersAfter(old(c.disk.folders), dir, file, written)
      invariant canWrite <==> dir in c.disk.folders
      invariant c.disk.states == old(c.disk.states)
    {
      assert uids[..k + 1][..k] == uids[..k];
      ghost var w := written;
      ghost var before := c.disk.folders;
      maxUid, newItems, errors, written := FetchOne(c, uids[k], fetch, folder, file, maxUid, newItems, errors, written, canWrite);
      FoldersAfterConcat(old(c.disk.folders), dir, file, w, written[|w|..]);
      assert w + written[|w|..] == written;
    }
    assert uids[..|uids|] == uids;
  }

  /** The body of the per-UID loop: fetch one message and save it. */
  method FetchOne(c: Connector, uid: nat, fetch: map<nat, FetchReply>, folder: string, file: FileOf,
                  maxUid: nat, newItems: nat, errors: seq<string>, ghost written: seq<Saved>, ghost canWrite: bool)
    returns (maxUid': nat, newItems': nat, errors': seq<string>, ghost written': seq<Saved>)
    requires canWrite <==> c.ItemsPath() in c.disk.folders
    modifies c.disk
    ensures FolderRun(maxUid', written', newItems', errors')
         == FetchStep(FolderRun(maxUid, written, newItems, errors), uid, fetch, folder, c.ItemsPath(), canWrite, file)
    ensures |written'| >= |written| && c.disk.folders == FoldersAfter(old(c.disk.folders), c.ItemsPath(), file, written'[|written|..])
    ensures canWrite <==> c.ItemsPath() in c.disk.folders
    ensures c.disk.states == old(c.disk.states)
  {
    var dir := c.ItemsPath();
    ghost var before := FolderRun(maxUid, written, newItems, errors);
    maxUid', newItems', errors', written' := maxUid, newItems, errors, written;
    var reply := Get(fetch, uid, FetchNotOk);
    match reply {
      case FetchNotOk =>
        assert FetchStep(before, uid, fetch, folder, dir, canWrite, file) == before;
      case FetchRaises(e) =>
        errors' := errors + [UidError(uid, e)];
        assert FetchStep(before, uid, fetch, folder, dir, canWrite, file) == before.(errors := errors');
      case Fetched(m) =>
        var entry := file(Saved(uid, m, folder));
        var name := entry.0;
        var ok := c.disk.WriteFile(dir, name, entry.1);
        if ok {
          newItems' := newItems + 1;
          if uid > maxUid {
            maxUid' := uid;
          }
          assert maxUid' == Max(maxUid, uid);
          var saved := Saved(uid, m, folder);
          written' := written + [saved];
          assert FetchStep(before, uid, fetch, folder, dir, canWrite, file) == FolderRun(maxUid', written', newItems', errors);
          assert written'[|written|..] == [saved];
          FoldersAfterOne(old(c.disk.folders), dir, file, saved);
        } else {
          errors' := errors + [UidError(uid, WriteError(dir, name))];
          assert FetchStep(before, uid, fetch, folder, dir, canWrite, file) == before.(errors := errors');
        }
    }
    if written' == written {
      assert written'[|written|..] == [];
      FoldersAfterNone(old(c.disk.folders), dir, file);
    }
  }

  lemma FoldersAfterNone(folders: map<string, map<string, string>>, dir: string, file: FileOf)
    ensures FoldersAfter(folders, dir, file, []) == folders
  {
  }

  lemma FoldersAfterOne(folders: map<string, map<string, string>>, dir: string, file: FileOf, saved: Saved)
    requires dir in folders
    ensures FoldersAfter(folders, dir, file, [saved]) == folders[dir := folders[dir][file(saved).0 := file(saved).1]]
  {
    assert [saved][..0] == [];
    var f := Files([saved], file);
    assert f == [file(saved)];
    assert f[..0] == [];
    assert WriteAll(folders[dir], f) == folders[dir][file(saved).0 := file(saved).1];
  }

  /** The (file name, content) pairs the saved messages are written as. */
  function Files(written: seq<Saved>, file: FileOf): (r: seq<(string, string)>)
    ensures |r| == |written|
  {
    if written == [] then []
    else Files(written[..|written| - 1], file) + [file(written[|written| - 1])]
  }

  lemma {:induction false} FilesConcat(a: seq<Saved>, b: seq<Saved>, file: FileOf)
    ensures Files(a + b, file) == Files(a, file) + Files(b, file)
    decreases |b|
  {
    if b == [] {
      assert a + b == a;
    } else {
      assert (a + b)[..|a + b| - 1] == a + b[..|b| - 1];
      FilesConcat(a, b[..|b| - 1], file);
    }
  }

  lemma FoldersAfterConcat(folders: map<string, map<string, string>>, dir: string, file: FileOf, a: seq<Saved>, b: seq<Saved>)
    ensures FoldersAfter(FoldersAfter(folders, dir, file, a), dir, file, b) == FoldersAfter(folders, dir, file, a + b)
  {
    if dir in folders {
      FilesConcat(a, b, file);
      WriteAllConcat(folders[dir], Files(a, file), Files(b, file));
      var m1 := FoldersAfter(folders, dir, file, a);
      assert m1[dir] == WriteAll(folders[dir], Files(a, file));
    }
  }

  /** The body of the folder loop, for a run with no exception yet. */
  method VisitFolder(c: Connector, folder: string, session: Session, file: FileOf, w0: map<string, nat>, ghost written0: seq<Saved>,
                     n0: nat, e0: seq<string>)
    returns (watermarks: map<string, nat>, ghost written: seq<Saved>, newItems: nat, errors: seq<string>,
             failure: Option<string>)
    modifies c.disk
    ensures SyncRun(watermarks, written, newItems, errors, failure)
         == FolderStep(SyncRun(w0, written0, n0, e0, None), folder, session, c.ItemsPath(), c.ItemsPath() in old(c.disk.folders), file)
    ensures |written| >= |written0| && written[..|written0|] == written0
    ensures c.disk.folders == FoldersAfter(old(c.disk.folders), c.ItemsPath(), file, written[|written0|..])
    ensures c.disk.states == old(c.disk.states)
  {
    var dir := c.ItemsPath();
    ghost var canWrite := dir in c.disk.folders;
    ghost var run := SyncRun(w0, written0, n0, e0, None);
    watermarks, written, newItems, errors, failure := w0, written0, n0, e0, None;
    var reply := Get(session.folders, folder, NoReply);
    if reply.select.SelectOk? && reply.search.SearchOk? && reply.search.uids != [] {
      var last := Get(w0, folder, 0);
      var todo := NewUids(reply.search.uids, last);
      ghost var f := FetchUids(todo, reply.fetch, folder, last, dir, canWrite, file);
      assert FolderStep(run, folder, session, dir, canWrite, file)
          == SyncRun(w0[folder := f.maxUid], written0 + f.written, n0 + f.newItems, e0 + f.errors, None);
      var maxUid, n, errs := FetchFolder(c, todo, reply.fetch, folder, last, file);
      written := written0 + f.written;
      assert written[|written0|..] == f.written;
      newItems := n0 + n;
      errors := e0 + errs;
      watermarks := w0[folder := maxUid];
    } else {
      if reply.select.SelectOk? && reply.search.SearchRaises? {
        errors := e0 + [reply.search.reason];
        failure := Some(reply.search.reason);
      }
      assert written[|written0|..] == [];
      FoldersAfterNone(c.disk.folders, dir, file);
    }
  }

  /** The loop over Folders; an exception ends it. */
  method SyncAllFolders(c: Connector, session: Session, file: FileOf, w0: map<string, nat>)
    returns (watermarks: map<string, nat>, newItems: nat, errors: seq<string>, failure: Option<string>)
    modifies c.disk
    ensures var run := SyncFolders(Folders, SyncRun(w0, [], 0, [], None), session, c.ItemsPath(), c.ItemsPath() in old(c.disk.folders), file);
      && watermarks == run.watermarks && newItems == run.newItems && errors == run.errors && failure == run.failure
      && c.disk.folders == FoldersAfter(old(c.disk.folders), c.ItemsPath(), file, run.written)
    ensures c.disk.states == old(c.disk.states)
  {
    var dir := c.ItemsPath();
    ghost var canWrite := dir in c.disk.folders;
    ghost var start := SyncRun(w0, [], 0, [], None);
    ghost var written: seq<Saved> := [];
    watermarks, newItems, errors, failure := w0, 0, [], None;
    var i := 0;
    while i < |Folders| && failure.None?
      invariant 0 <= i <= |Folders|
      invariant SyncFolders(Folders[..i], start, session, dir, canWrite, file) == SyncRun(watermarks, written, newItems, errors, failure)
      invariant c.disk.folders == FoldersAfter(old(c.disk.folders), dir, file, written)
      invariant c.disk.states == old(c.disk.states)
    {
      assert Folders[..i + 1][..i] == Folders[..i];
      ghost var w := written;
      watermarks, written, newItems, errors, failure := VisitFolder(c, Folders[i], session, file, watermarks, written, newItems, errors);
      FoldersAfterConcat(old(c.disk.folders), dir, file, w, written[|w|..]);
      assert w + written[|w|..] == written;
      i := i + 1;
    }
    if failure.Some? {
      FailureEndsSync(Folders, i, start, session, dir, canWrite, file);
    } else {
      assert Folders[..i] == Folders;
    }
  }

  predicate Authed(creds: Option<map<string, string>>)
  {
    creds.Some? && |creds.value| > 0
  }

  /**
   * sync: per folder, fetch the messages above the watermark and save each
   * as a .txt file. State is saved only when the whole session succeeds;
   * an exception part-way leaves the saved watermarks as they were.
   */
  method Sync(c: Connector, session: Session, now: string) returns (res: SyncResult)
    modifies c, c.disk
    ensures c.credentials == old(c.credentials)
    ensures !Authed(old(c.credentials)) ==>
      res == SyncResult(0, 0, ["Not authenticated"]) && c.status == old(c.status) && c.lastError == old(c.lastError)
      && c.disk.folders == old(c.disk.folders) && c.disk.states == old(c.disk.states)
    ensures Authed(old(c.credentials)) && session.loginError.Some? ==>
      res == SyncResult(0, 0, [session.loginError.value]) && c.status == Error && c.lastError == session.loginError
      && c.disk.folders == old(c.disk.folders) && c.disk.states == old(c.disk.states)
    ensures !Authed(old(c.credentials)) || session.loginError.Some? ==>
      c.lastSync == old(c.lastSync) && c.itemsSynced == old(c.itemsSynced)
    ensures Authed(old(c.credentials)) && session.loginError.None? ==>
      var run := SyncSpec(old(c.Loaded()).watermarks.GetOr(map[]), session, c.ItemsPath(), c.ItemsPath() in old(c.disk.folders), MailFile);
      && c.disk.folders == FoldersAfter(old(c.disk.folders), c.ItemsPath(), MailFile, run.written)
      && res.newItems == run.newItems && res.errors == run.errors && res.totalItems == c.CountItems()
      && (run.failure.Some? ==>
            c.status == Error && c.lastError == run.failure && c.disk.states == old(c.disk.states)
            && c.lastSync == old(c.lastSync) && c.itemsSynced == old(c.itemsSynced))
      && (run.failure.None? ==>
            c.status == Idle && c.lastError.None? && c.lastSync == Some(now) && c.itemsSynced == c.CountItems()
            && c.disk.states == old(c.disk.states)[c.StatePath() := SyncState(Some(run.watermarks), Some(now), Some(c.itemsSynced))])
  {
    if !Authed(c.credentials) {
      return SyncResult(0, 0, ["Not authenticated"]);
    }
    c.status := Syncing;
    var state := c.LoadState();
    if session.loginError.Some? {
      c.status := Error;
      c.lastError := session.loginError;
      return SyncResult(0, 0, [session.loginError.value]);
    }
    res := SyncSession(c, session, now, state.watermarks.GetOr(map[]));
  }

  /** The sync after a successful login: both folders, logout, and the state saved when nothing raised. */
  method SyncSession(c: Connector, session: Session, now: string, w0: map<string, nat>) returns (res: SyncResult)
    modifies c, c.disk
    ensures c.credentials == old(c.credentials)
    ensures var run := SyncSpec(w0, session, c.ItemsPath(), c.ItemsPath() in old(c.disk.folders), MailFile);
      && c.disk.folders == FoldersAfter(old(c.disk.folders), c.ItemsPath(), MailFile, run.written)
      && res.newItems == run.newItems && res.errors == run.errors && res.totalItems == c.CountItems()
      && (run.failure.Some? ==>
            c.status == Error && c.lastError == run.failure && c.disk.states == old(c.disk.states)
            && c.lastSync == old(c.lastSync) && c.itemsSynced == old(c.itemsSynced))
      && (run.failure.None? ==>
            c.status == Idle && c.lastError.None? && c.lastSync == Some(now) && c.itemsSynced == c.CountItems()
            && c.disk.states == old(c.disk.states)[c.StatePath() := SyncState(Some(run.watermarks), Some(now), Some(c.itemsSynced))])
  {
    var watermarks, newItems, errors, failure := SyncAllFolders(c, session, MailFile, w0);
    if failure.None? && session.logoutError.Some? {
      errors := errors + [session.logoutError.value];
      failure := session.logoutError;
    }
    if failure.Some? {
      c.status := Error;
      c.lastError := failure;
      return SyncResult(newItems, c.CountItems(), errors);
    }
    c.lastSync := Some(now);
    c.itemsSynced := c.CountItems();
    c.status := Idle;
    c.lastError := None;
    c.SaveState(SyncState(Some(watermarks), Some(now), Some(c.itemsSynced)));
    res := SyncResult(newItems, c.itemsSynced, errors);
  }

  lemma {:induction false} WriteAllConcat(files: map<string, string>, a: seq<(string, string)>, b: seq<(string, string)>)
    ensures WriteAll(files, a + b) == WriteAll(WriteAll(files, a), b)
    decreases |b|
  {
    if b == [] {
      assert a + b == a;
    } else {
      assert (a + b)[..|a + b| - 1] == a + b[..|b| - 1];
      WriteAllConcat(files, a, b[..|b| - 1]);
    }
  }
}
