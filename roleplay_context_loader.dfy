/**
 * Role-play context loading: the priming conversation is read from a CSV
 * template (rows of a role and a message) and its placeholders are filled
 * with the character's own text. The file system is a parameter: the template
 * file is either absent or its parsed rows.
 */
module Roleplay {
  import opened Wrappers
  import opened Strings
  import opened Common

  /** The roles of a chat-completion message. */
  datatype ChatRole = System | User | Assistant

  datatype ChatMessage = ChatMessage(role: ChatRole, content: string)

  /** One CSV row: the cells under the `Role` and `Message` columns, None when the column is absent. */
  datatype CsvRow = CsvRow(role: Option<string>, message: Option<string>)

  /** The system prompt used in role-play mode. */
  const ROLEPLAY_SYSTEM_PROMPT: string :=
    "You are participating in a roleplay. Follow the instructions provided in the conversation history to play your assigned role."

  /** The error raised when the template yields no message. */
  const TEMPLATE_MISSING: string := "Role-play template messages could not be loaded."

  /** The names of the seven placeholders, in filling order. */
  const PLACEHOLDER_NAMES: seq<string> := [
    "ROLE_CORE_DESCRIPTION",
    "ROLE_ACKNOWLEDGEMENT_PHRASE",
    "ROLE_RULES_AND_CONSTRAINTS",
    "ROLE_CONFIRMATION_PHRASE",
    "EXAMPLE_SAY",
    "EXAMPLE_THINK",
    "EXAMPLE_DO"]

  /** A placeholder: its name between braces. */
  function Braced(name: string): string {
    "{" + name + "}"
  }

  /** The placeholders a template message may hold, in filling order. */
  const PLACEHOLDERS: seq<string> := Placeholders(PLACEHOLDER_NAMES)

  /** Each name in braces, in order. */
  function Placeholders(names: seq<string>): (ps: seq<string>)
    ensures |ps| == |names|
    ensures forall k :: 0 <= k < |names| ==> ps[k] == Braced(names[k])
  {
    if names == [] then [] else [Braced(names[0])] + Placeholders(names[1..])
  }

  // ---------------------------------------------------------------- loading

  /** A cell's text; an absent column reads as the empty string. */
  function Cell(v: Option<string>): string {
    if v.Some? then v.value else ""
  }

  /** The chat role a CSV role cell names, once trimmed and upper-cased: USER or ASSISTANT, nothing else. */
  function RoleOf(cell: string): Option<ChatRole> {
    var role := Upper(Strip(cell));
    if role == "USER" then Some(User)
    else if role == "ASSISTANT" then Some(Assistant)
    else None
  }

  /** The message a row yields: its trimmed text under the named role, or nothing. */
  function RowMessages(row: CsvRow): (messages: seq<ChatMessage>)
    ensures |messages| <= 1
    ensures forall i :: 0 <= i < |messages| ==> messages[i].role != System
  {
    match RoleOf(Cell(row.role))
    case Some(role) => [ChatMessage(role, Strip(Cell(row.message)))]
    case None => []
  }

  /** The messages of a template's rows, in row order; rows with another role are skipped. */
  function TemplateOf(rows: seq<CsvRow>): seq<ChatMessage>
  {
    if rows == [] then [] else TemplateOf(rows[..|rows| - 1]) + RowMessages(rows[|rows| - 1])
  }

  /** `load_roleplay_template`: a missing file gives no messages; otherwise each USER or
      ASSISTANT row, whatever its case and surrounding blanks, becomes a message with its
      trimmed text, and every other row is skipped. */
  method LoadRoleplayTemplate(file: Option<seq<CsvRow>>) returns (messages: seq<ChatMessage>)
    ensures file.None? ==> messages == []
    ensures file.Some? ==> messages == TemplateOf(file.value)
  {
    if file.None? {
      return [];
    }
    var rows := file.value;
    messages := [];
    for i := 0 to |rows|
      invariant messages == TemplateOf(rows[..i])
    {
      TemplateStep(rows, i);
      messages := AppendRow(messages, rows[i]);
    }
    assert rows[..|rows|] == rows;
  }

  /** The body of the loading loop: a USER or ASSISTANT row adds its message, any other row nothing. */
  method AppendRow(messages: seq<ChatMessage>, row: CsvRow) returns (more: seq<ChatMessage>)
    ensures more == messages + RowMessages(row)
  {
    var role := RoleOf(Cell(row.role));
    var message := Strip(Cell(row.message));
    more := messages;
    if role == Some(User) {
      more := messages + [ChatMessage(User, message)];
    } else if role == Some(Assistant) {
      more := messages + [ChatMessage(Assistant, message)];
    }
  }

  lemma TemplateStep(rows: seq<CsvRow>, i: nat)
    requires i < |rows|
    ensures TemplateOf(rows[..i + 1]) == TemplateOf(rows[..i]) + RowMessages(rows[i])
  {
    assert rows[..i + 1][..i] == rows[..i];
  }

  /** Loading is row by row: the messages of two blocks of rows are the messages of each, in order. */
  lemma {:induction false} TemplateConcat(a: seq<CsvRow>, b: seq<CsvRow>)
    ensures TemplateOf(a + b) == TemplateOf(a) + TemplateOf(b)
    decreases |b|
  {
    if b == [] {
      assert a + b == a;
    } else {
      var init, last := b[..|b| - 1], b[|b| - 1];
      assert (a + b)[|a + b| - 1] == last;
      assert (a + b)[..|a + b| - 1] == a + init;
      calc {
        TemplateOf(a + b);
        TemplateOf(a + init) + RowMessages(last);
        { TemplateConcat(a, init); }
        TemplateOf(a) + TemplateOf(init) + RowMessages(last);
      }
    }
  }

  /** A template has at most one message per row, and only user and assistant messages. */
  lemma {:induction false} TemplateRoles(rows: seq<CsvRow>)
    ensures |TemplateOf(rows)| <= |rows|
    ensures forall i :: 0 <= i < |TemplateOf(rows)| ==> TemplateOf(rows)[i].role in {User, Assistant}
    decreases |rows|
  {
    if rows != [] {
      TemplateRoles(rows[..|rows| - 1]);
    }
  }

  /** A single row yields one message exactly when its role is USER or ASSISTANT, and then
      the message carries that role and the trimmed text. */
  lemma TemplateOfRow(row: CsvRow)
    ensures RoleOf(Cell(row.role)).None? <==> TemplateOf([row]) == []
    ensures RoleOf(Cell(row.role)).Some? ==>
      TemplateOf([row]) == [ChatMessage(RoleOf(Cell(row.role)).value, Strip(Cell(row.message)))]
  {
    assert [row][..0] == [];
  }

  /** Every loaded message's text is trimmed: it neither starts nor ends with whitespace. */
  lemma {:induction false} TemplateTrimmed(rows: seq<CsvRow>)
    ensures forall i :: 0 <= i < |TemplateOf(rows)| && TemplateOf(rows)[i].content != [] ==>
      !IsSpace(TemplateOf(rows)[i].content[0]) && !IsSpace(TemplateOf(rows)[i].content[|TemplateOf(rows)[i].content| - 1])
    decreases |rows|
  {
    if rows != [] {
      TemplateTrimmed(rows[..|rows| - 1]);
    }
  }

  // ---------------------------------------------------------------- placeholder filling

  /** The replacement for each placeholder, in filling order: each placeholder is filled
      from the field it names. */
  function Values(x: PatientRoleplayExamples): (values: seq<string>)
    ensures |values| == |PLACEHOLDERS|
    ensures values[0] == x.roleCoreDescription && values[1] == x.roleAcknowledgementPhrase
    ensures values[2] == x.roleRulesAndConstraints && values[3] == x.roleConfirmationPhrase
    ensures values[4] == x.exampleSay && values[5] == x.exampleThink && values[6] == x.exampleDo
  {
    [x.roleCoreDescription, x.roleAcknowledgementPhrase, x.roleRulesAndConstraints,
     x.roleConfirmationPhrase, x.exampleSay, x.exampleThink, x.exampleDo]
  }

  /** The content after the first n placeholders have been replaced, one after the other. */
  function FillUpTo(content: string, values: seq<string>, n: nat): string
    requires n <= |PLACEHOLDERS| == |values|
  {
    if n == 0 then content
    else Replace(FillUpTo(content, values, n - 1), PLACEHOLDERS[n - 1], values[n - 1])
  }

  /** A template message's content with all seven placeholders replaced. */
  function Fill(content: string, x: PatientRoleplayExamples): string {
    FillUpTo(content, Values(x), |PLACEHOLDERS|)
  }

  /** Content that holds none of the first n placeholders is left as it is by their replacement. */
  lemma {:induction false} FillUpToUnchanged(content: string, values: seq<string>, n: nat)
    requires n <= |PLACEHOLDERS| == |values|
    requires forall k :: 0 <= k < n ==> !Contains(content, PLACEHOLDERS[k])
    ensures FillUpTo(content, values, n) == content
  {
    if n > 0 {
      FillUpToUnchanged(content, values, n - 1);
      ReplaceAbsent(content, PLACEHOLDERS[n - 1], values[n - 1]);
    }
  }

  /** A template message without any placeholder is passed on as it is. */
  lemma FillUnchanged(content: string, x: PatientRoleplayExamples)
    requires forall k :: 0 <= k < |PLACEHOLDERS| ==> !Contains(content, PLACEHOLDERS[k])
    ensures Fill(content, x) == content
  {
    FillUpToUnchanged(content, Values(x), |PLACEHOLDERS|);
  }

  /** Text free of both braces. */
  predicate BraceFree(s: string) {
    '{' !in s && '}' !in s
  }

  /** The placeholder names are brace-free. */
  lemma PlaceholderNamesPlain()
    ensures forall k :: 0 <= k < |PLACEHOLDER_NAMES| ==> BraceFree(PLACEHOLDER_NAMES[k])
  {
  }

  /** The placeholder names are pairwise different: their lengths are. */
  lemma PlaceholderNamesDistinct()
    ensures forall j, k :: 0 <= j < k < |PLACEHOLDER_NAMES| ==> |PLACEHOLDER_NAMES[j]| != |PLACEHOLDER_NAMES[k]|
  {
  }

  /** Every placeholder opens with a brace. */
  lemma PlaceholdersOpenWithBrace()
    ensures forall k :: 0 <= k < |PLACEHOLDERS| ==> |PLACEHOLDERS[k]| > 0 && PLACEHOLDERS[k][0] == '{'
  {
  }

  /** Where one brace-free name in braces occurs, no other one starts: the closing brace
      of the shorter would have to be a character of the longer name. */
  lemma BracedExclusive(s: string, n: string, m: string, i: int)
    requires BraceFree(n) && BraceFree(m) && n != m
    requires OccursAt(s, Braced(n), i)
    ensures !OccursAt(s, Braced(m), i)
  {
    var p, q := Braced(n), Braced(m);
    if i + |q| <= |s| {
      if |n| == |m| {
        assert p[1..|p| - 1] == n && q[1..|q| - 1] == m;
        assert s[i..i + |q|] == p != q;
      } else if |n| < |m| {
        assert s[i + |p| - 1] == p[|p| - 1] == '}';
        assert q[|p| - 1] == m[|p| - 2] != '}';
        assert s[i..i + |q|][|p| - 1] != q[|p| - 1];
      } else {
        assert s[i + |q| - 1] == p[|q| - 1] == n[|q| - 2] != '}';
        assert s[i..i + |q|][|q| - 1] != q[|q| - 1];
      }
    }
  }

  /** Every opening brace in s starts an occurrence of p. */
  predicate BracesOpen(s: string, p: string) {
    forall i :: 0 <= i < |s| ==> s[i] != '{' || OccursAt(s, p, i)
  }

  /** Pieces without an opening brace, joined by a brace-free name in braces: every
      opening brace of the result opens that placeholder. */
  lemma {:induction false} JoinBracesOpen(pieces: seq<string>, n: string)
    requires BraceFree(n)
    requires forall j :: 0 <= j < |pieces| ==> '{' !in pieces[j]
    ensures BracesOpen(Join(pieces, Braced(n)), Braced(n))
    decreases |pieces|
  {
    if |pieces| > 1 {
      var p, head := Braced(n), pieces[0];
      var rest := Join(pieces[1..], p);
      JoinBracesOpen(pieces[1..], n);
      var s := Join(pieces, p);
      assert s == head + p + rest;
      forall i | 0 <= i < |s|
        ensures s[i] != '{' || OccursAt(s, p, i)
      {
        if i < |head| {
          assert s[i] == head[i];
        } else if i == |head| {
          assert s[i..i + |p|] == p;
        } else if i < |head| + |p| {
          assert s[i] == p[i - |head|];
          assert i - |head| == |p| - 1 || s[i] == n[i - |head| - 1];
        } else {
          var t := i - |head| - |p|;
          assert s[i] == rest[t];
          if rest[t] == '{' {
            assert s[|head| + |p|..] == rest;
            OccursInSuffix(s, p, |head| + |p|, t);
          }
        }
      }
    }
  }

  /** Text whose every opening brace opens one placeholder holds no other placeholder. */
  lemma OtherPlaceholderAbsent(s: string, n: string, m: string)
    requires BraceFree(n) && BraceFree(m) && n != m
    requires BracesOpen(s, Braced(n))
    ensures !Contains(s, Braced(m))
  {
    var q := Braced(m);
    forall i | 0 <= i <= |s| - |q|
      ensures !OccursAt(s, q, i)
    {
      if s[i] == '{' {
        BracedExclusive(s, n, m, i);
      } else {
        assert s[i..i + |q|][0] != q[0];
      }
    }
  }

  /** Placeholder substitution, for every placeholder and any number of occurrences: text
      made of brace-free pieces with the k-th placeholder between them is filled into the same
      pieces with the k-th value between them, provided that value holds no opening brace. */
  lemma PlaceholderSubstituted(pieces: seq<string>, k: nat, x: PatientRoleplayExamples)
    requires k < |PLACEHOLDERS|
    requires forall j :: 0 <= j < |pieces| ==> '{' !in pieces[j]
    requires '{' !in Values(x)[k]
    ensures Fill(Join(pieces, PLACEHOLDERS[k]), x) == Join(pieces, Values(x)[k])
  {
    var values, p := Values(x), PLACEHOLDERS[k];
    var content, filled := Join(pieces, p), Join(pieces, values[k]);
    assert FillUpTo(content, values, k) == content by {
      EarlierPlaceholdersAbsent(pieces, k);
      FillUpToUnchanged(content, values, k);
    }
    assert FillUpTo(content, values, k + 1) == filled by {
      PlaceholdersOpenWithBrace();
      if pieces != [] {
        SplitJoinPlain(pieces, p);
      }
      ReplaceSplitJoin(content, p, values[k]);
    }
    PlaceholdersAbsent(pieces, values[k]);
    FillFrom(content, values, k + 1, |PLACEHOLDERS|);
  }

  /** Brace-free pieces joined by the k-th placeholder hold none of the placeholders before it. */
  lemma EarlierPlaceholdersAbsent(pieces: seq<string>, k: nat)
    requires k < |PLACEHOLDERS|
    requires forall j :: 0 <= j < |pieces| ==> '{' !in pieces[j]
    ensures forall j :: 0 <= j < k ==> !Contains(Join(pieces, PLACEHOLDERS[k]), PLACEHOLDERS[j])
  {
    PlaceholderJoinBracesOpen(pieces, k);
    forall j | 0 <= j < k
      ensures !Contains(Join(pieces, PLACEHOLDERS[k]), PLACEHOLDERS[j])
    {
      LaterPlaceholderExcludes(Join(pieces, PLACEHOLDERS[k]), j, k);
    }
  }

  /** Brace-free pieces joined by the k-th placeholder: every opening brace opens it. */
  lemma PlaceholderJoinBracesOpen(pieces: seq<string>, k: nat)
    requires k < |PLACEHOLDERS|
    requires forall j :: 0 <= j < |pieces| ==> '{' !in pieces[j]
    ensures BracesOpen(Join(pieces, PLACEHOLDERS[k]), PLACEHOLDERS[k])
  {
    var name := PLACEHOLDER_NAMES[k];
    assert BraceFree(name) by {
      PlaceholderNamesPlain();
    }
    assert PLACEHOLDERS[k] == Braced(name);
    JoinBracesOpen(pieces, name);
  }

  /** Text whose every opening brace opens the k-th placeholder holds no earlier one. */
  lemma LaterPlaceholderExcludes(s: string, j: nat, k: nat)
    requires j < k < |PLACEHOLDERS|
    requires BracesOpen(s, PLACEHOLDERS[k])
    ensures !Contains(s, PLACEHOLDERS[j])
  {
    PlaceholderNamesPlain();
    PlaceholderNamesDistinct();
    OtherPlaceholderAbsent(s, PLACEHOLDER_NAMES[k], PLACEHOLDER_NAMES[j]);
  }

  /** Pieces joined by a separator, none of them with an opening brace, hold no placeholder. */
  lemma PlaceholdersAbsent(pieces: seq<string>, sep: string)
    requires '{' !in sep
    requires forall j :: 0 <= j < |pieces| ==> '{' !in pieces[j]
    ensures forall j :: 0 <= j < |PLACEHOLDERS| ==> !Contains(Join(pieces, sep), PLACEHOLDERS[j])
  {
    JoinAvoidsChar(pieces, sep, '{');
    PlaceholdersOpenWithBrace();
    forall j | 0 <= j < |PLACEHOLDERS|
      ensures !Contains(Join(pieces, sep), PLACEHOLDERS[j])
    {
      AbsentFirstChar(Join(pieces, sep), PLACEHOLDERS[j]);
    }
  }

  /** The single-occurrence case: a placeholder between brace-free texts is replaced by its
      value and the surrounding text is kept. */
  lemma PlaceholderSubstitutedOnce(a: string, b: string, k: nat, x: PatientRoleplayExamples)
    requires k < |PLACEHOLDERS|
    requires '{' !in a && '{' !in b && '{' !in Values(x)[k]
    ensures Fill(a + PLACEHOLDERS[k] + b, x) == a + Values(x)[k] + b
  {
    JoinShapes([a, b], PLACEHOLDERS[k]);
    JoinShapes([a, b], Values(x)[k]);
    PlaceholderSubstituted([a, b], k, x);
  }

  /** Segments with one text between each two of them: `segs[0] + fills[0] + segs[1] + …`. */
  function Interleave(segs: seq<string>, fills: seq<string>): string
    requires |segs| == |fills| + 1
    decreases |fills|
  {
    if fills == [] then segs[0] else segs[0] + fills[0] + Interleave(segs[1..], fills[1..])
  }

  /** What stands where the k-th placeholder stood once the first n placeholders are filled:
      its value when it is among them, the placeholder itself otherwise. */
  function Slot(k: nat, x: PatientRoleplayExamples, n: nat): string
    requires k < |PLACEHOLDERS|
  {
    if k < n then Values(x)[k] else PLACEHOLDERS[k]
  }

  /** The slots of the placeholders ks, in order, once the first n are filled. */
  function Slots(ks: seq<nat>, x: PatientRoleplayExamples, n: nat): (fills: seq<string>)
    requires forall i :: 0 <= i < |ks| ==> ks[i] < |PLACEHOLDERS|
    ensures |fills| == |ks|
    ensures forall i :: 0 <= i < |ks| ==> fills[i] == Slot(ks[i], x, n)
  {
    if ks == [] then [] else [Slot(ks[0], x, n)] + Slots(ks[1..], x, n)
  }

  /** Placeholder substitution for any mix of placeholders: brace-free segments with the
      placeholders ks between them are filled into the same segments with the values of
      ks between them, provided none of those values holds an opening brace. */
  lemma MixedPlaceholdersSubstituted(segs: seq<string>, ks: seq<nat>, x: PatientRoleplayExamples)
    requires |segs| == |ks| + 1
    requires forall i :: 0 <= i < |segs| ==> '{' !in segs[i]
    requires forall i :: 0 <= i < |ks| ==> ks[i] < |PLACEHOLDERS| && '{' !in Values(x)[ks[i]]
    ensures Fill(Interleave(segs, Slots(ks, x, 0)), x) == Interleave(segs, Slots(ks, x, |PLACEHOLDERS|))
  {
    SlotsFilled(segs, ks, x, |PLACEHOLDERS|);
  }

  /** Filling the first n placeholders turns the slots of the placeholders into those of the
      first n filled. */
  lemma {:induction false} SlotsFilled(segs: seq<string>, ks: seq<nat>, x: PatientRoleplayExamples, n: nat)
    requires n <= |PLACEHOLDERS|
    requires |segs| == |ks| + 1
    requires forall i :: 0 <= i < |segs| ==> '{' !in segs[i]
    requires forall i :: 0 <= i < |ks| ==> ks[i] < |PLACEHOLDERS| && '{' !in Values(x)[ks[i]]
    ensures FillUpTo(Interleave(segs, Slots(ks, x, 0)), Values(x), n) == Interleave(segs, Slots(ks, x, n))
  {
    if n > 0 {
      var content, values := Interleave(segs, Slots(ks, x, 0)), Values(x);
      SlotsFilled(segs, ks, x, n - 1);
      SlotsStep(segs, ks, x, n - 1);
      assert FillUpTo(content, values, n) == Replace(FillUpTo(content, values, n - 1), PLACEHOLDERS[n - 1], values[n - 1]);
    }
  }

  /** Replacing the n-th placeholder fills exactly its own slots. */
  lemma {:induction false} SlotsStep(segs: seq<string>, ks: seq<nat>, x: PatientRoleplayExamples, n: nat)
    requires n < |PLACEHOLDERS|
    requires |segs| == |ks| + 1
    requires forall i :: 0 <= i < |segs| ==> '{' !in segs[i]
    requires forall i :: 0 <= i < |ks| ==> ks[i] < |PLACEHOLDERS| && '{' !in Values(x)[ks[i]]
    ensures Replace(Interleave(segs, Slots(ks, x, n)), PLACEHOLDERS[n], Values(x)[n])
         == Interleave(segs, Slots(ks, x, n + 1))
    decreases |ks|
  {
    var p, v := PLACEHOLDERS[n], Values(x)[n];
    if ks == [] {
      PlaceholdersOpenWithBrace();
      AbsentFirstChar(segs[0], p);
      ReplaceAbsent(segs[0], p, v);
    } else {
      var s0, k := segs[0], ks[0];
      var rest := Interleave(segs[1..], Slots(ks[1..], x, n));
      assert Interleave(segs, Slots(ks, x, n)) == s0 + Slot(k, x, n) + rest by {
        assert Slots(ks, x, n)[1..] == Slots(ks[1..], x, n);
      }
      assert Interleave(segs, Slots(ks, x, n + 1))
          == s0 + Slot(k, x, n + 1) + Interleave(segs[1..], Slots(ks[1..], x, n + 1)) by {
        assert Slots(ks, x, n + 1)[1..] == Slots(ks[1..], x, n + 1);
      }
      SlotsStep(segs[1..], ks[1..], x, n);
      SlotReplaced(s0, k, x, n, rest);
    }
  }

  /** Replacing the n-th placeholder in a brace-free segment, a slot and the text after them:
      the segment is kept, the slot becomes the slot with the n-th placeholder filled, and the
      scan goes on in the text after. */
  lemma SlotReplaced(s0: string, k: nat, x: PatientRoleplayExamples, n: nat, rest: string)
    requires k < |PLACEHOLDERS| && n < |PLACEHOLDERS|
    requires '{' !in s0 && '{' !in Values(x)[k]
    ensures Replace(s0 + Slot(k, x, n) + rest, PLACEHOLDERS[n], Values(x)[n])
         == s0 + Slot(k, x, n + 1) + Replace(rest, PLACEHOLDERS[n], Values(x)[n])
  {
    var p, v := PLACEHOLDERS[n], Values(x)[n];
    if k == n {
      forall i | 0 <= i < |s0|
        ensures !OccursAt(s0 + p + rest, p, i)
      {
        NoBraceNoPlaceholder(s0 + p + rest, i, n);
      }
      ReplaceAt(s0, p, rest, v);
    } else {
      SlotStartsNone(s0, k, x, n, rest);
      ReplaceKeep(s0 + Slot(k, x, n), rest, p, v);
    }
  }

  /** No placeholder starts at a character other than an opening brace. */
  lemma NoBraceNoPlaceholder(s: string, i: nat, n: nat)
    requires i < |s| && s[i] != '{' && n < |PLACEHOLDERS|
    ensures !OccursAt(s, PLACEHOLDERS[n], i)
  {
    PlaceholdersOpenWithBrace();
    if i + |PLACEHOLDERS[n]| <= |s| {
      assert s[i..i + |PLACEHOLDERS[n]|][0] == s[i];
    }
  }

  /** After the n-th placeholder is replaced, no occurrence of it starts in a brace-free segment
      followed by the slot of another placeholder. */
  lemma SlotStartsNone(s0: string, k: nat, x: PatientRoleplayExamples, n: nat, rest: string)
    requires k < |PLACEHOLDERS| && n < |PLACEHOLDERS| && k != n
    requires '{' !in s0 && '{' !in Values(x)[k]
    ensures forall i :: 0 <= i < |s0 + Slot(k, x, n)| ==> !OccursAt(s0 + Slot(k, x, n) + rest, PLACEHOLDERS[n], i)
  {
    var f := Slot(k, x, n);
    var s := s0 + f + rest;
    forall i | 0 <= i < |s0 + f|
      ensures !OccursAt(s, PLACEHOLDERS[n], i)
    {
      if i < |s0| {
        assert s[i] == s0[i];
        NoBraceNoPlaceholder(s, i, n);
      } else if k < n {
        assert s[i] == Values(x)[k][i - |s0|];
        NoBraceNoPlaceholder(s, i, n);
      } else if i == |s0| {
        PlaceholderNamesPlain();
        PlaceholderNamesDistinct();
        var m, o := PLACEHOLDER_NAMES[k], PLACEHOLDER_NAMES[n];
        assert f == Braced(m) && PLACEHOLDERS[n] == Braced(o);
        assert s[i..i + |f|] == f;
        BracedExclusive(s, m, o, i);
      } else {
        PlaceholderNamesPlain();
        var m := PLACEHOLDER_NAMES[k];
        assert f == Braced(m);
        assert s[i] == f[i - |s0|];
        assert i - |s0| == |f| - 1 || s[i] == m[i - |s0| - 1];
        NoBraceNoPlaceholder(s, i, n);
      }
    }
  }

  /** Once the content holds no placeholder, the remaining replacements change nothing. */
  lemma {:induction false} FillFrom(content: string, values: seq<string>, m: nat, n: nat)
    requires m <= n <= |PLACEHOLDERS| == |values|
    requires forall k :: 0 <= k < |PLACEHOLDERS| ==> !Contains(FillUpTo(content, values, m), PLACEHOLDERS[k])
    ensures FillUpTo(content, values, n) == FillUpTo(content, values, m)
    decreases n - m
  {
    if m < n {
      FillFrom(content, values, m, n - 1);
      ReplaceAbsent(FillUpTo(content, values, m), PLACEHOLDERS[n - 1], values[n - 1]);
    }
  }

  // ---------------------------------------------------------------- formatting

  /** The template messages a file yields; a missing file yields none. */
  function TemplateIn(file: Option<seq<CsvRow>>): seq<ChatMessage> {
    if file.Some? then TemplateOf(file.value) else []
  }

  /** The messages are the template's, one for one, with the same roles and the contents filled. */
  predicate FilledFrom(messages: seq<ChatMessage>, template: seq<ChatMessage>, x: PatientRoleplayExamples) {
    && |messages| == |template|
    && forall i :: 0 <= i < |template| ==>
         messages[i] == ChatMessage(template[i].role, Fill(template[i].content, x))
  }

  /** `format_roleplay_context`: an empty template is an error; otherwise the fixed system
      prompt and every template message with its placeholders filled, role and order kept. */
  method FormatRoleplayContext(file: Option<seq<CsvRow>>, x: PatientRoleplayExamples)
    returns (result: Result<(string, seq<ChatMessage>), string>)
    ensures result.Err? <==> TemplateIn(file) == []
    ensures result.Err? ==> result.error == TEMPLATE_MISSING
    ensures result.Ok? ==> result.value.0 == ROLEPLAY_SYSTEM_PROMPT && FilledFrom(result.value.1, TemplateIn(file), x)
  {
    var templateMessages := LoadRoleplayTemplate(file);
    if file.Some? {
      TemplateRoles(file.value);
    }
    if templateMessages == [] {
      return Err(TEMPLATE_MISSING);
    }
    var formattedMessages := FormatMessages(templateMessages, x);
    return Ok((ROLEPLAY_SYSTEM_PROMPT, formattedMessages));
  }

  /** The formatting loop: each user or assistant message with its placeholders filled. */
  method FormatMessages(templateMessages: seq<ChatMessage>, x: PatientRoleplayExamples)
    returns (formattedMessages: seq<ChatMessage>)
    requires forall i :: 0 <= i < |templateMessages| ==> templateMessages[i].role in {User, Assistant}
    ensures |formattedMessages| == |templateMessages|
    ensures forall k :: 0 <= k < |templateMessages| ==>
      formattedMessages[k] == ChatMessage(templateMessages[k].role, Fill(templateMessages[k].content, x))
  {
    formattedMessages := [];
    for i := 0 to |templateMessages|
      invariant |formattedMessages| == i
      invariant forall k :: 0 <= k < i ==>
        formattedMessages[k] == ChatMessage(templateMessages[k].role, Fill(templateMessages[k].content, x))
    {
      var msg := templateMessages[i];
      var content := FillPlaceholders(msg.content, x);
      if msg.role == User {
        formattedMessages := formattedMessages + [ChatMessage(User, content)];
      } else if msg.role == Assistant {
        formattedMessages := formattedMessages + [ChatMessage(Assistant, content)];
      }
    }
  }

  /** The placeholder loop: each placeholder in turn replaced by its value. */
  method FillPlaceholders(content: string, x: PatientRoleplayExamples) returns (filled: string)
    ensures filled == Fill(content, x)
  {
    var values := Values(x);
    filled := content;
    for j := 0 to |PLACEHOLDERS|
      invariant filled == FillUpTo(content, values, j)
    {
      filled := Replace(filled, PLACEHOLDERS[j], values[j]);
    }
  }
}
