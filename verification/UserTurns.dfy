/** What the text of a user turn is, and which wrapped prompts count as turns of the user. */
module UserTurns {
  import opened Wrappers
  import opened Conversation
  import opened Query

  // ----- the text of a turn

  lemma {:induction false} JoinConcat(a: seq<string>, b: seq<string>, sep: string)
    requires a != [] && b != []
    ensures Join(a + b, sep) == Join(a, sep) + sep + Join(b, sep)
  {
    if |a| == 1 {
      assert (a + b)[1..] == b;
    } else {
      JoinConcat(a[1..], b, sep);
      assert (a + b)[1..] == a[1..] + b;
      var x, y, z := a[0] + sep, Join(a[1..], sep), Join(b, sep);
      AppendAssociative(x, y + sep, z);
      AppendAssociative(x, y, sep);
    }
  }

  lemma {:induction false} TextsConcat(a: seq<ContentPart>, b: seq<ContentPart>)
    ensures TextsOf(a + b) == TextsOf(a) + TextsOf(b)
  {
    if a == [] {
      assert a + b == b;
    } else {
      TextsConcat(a[1..], b);
      assert (a + b)[1..] == a[1..] + b && (a + b)[0] == a[0];
      var first: seq<string> := if a[0].Text? then [a[0].text] else [];
      AppendAssociative(first, TextsOf(a[1..]), TextsOf(b));
    }
  }

  /** A turn is read as its texts, one per line, and its images are not text. */
  lemma TurnTextSplits(a: seq<ContentPart>, b: seq<ContentPart>, reason: Option<SyntheticReason>, turn: TurnMeta)
    ensures var (x, y, both) := (User(a, reason, turn), User(b, reason, turn), User(a + b, reason, turn));
            UserText(both) ==
              if TextsOf(a) == [] then UserText(y)
              else if TextsOf(b) == [] then UserText(x)
              else UserText(x) + "\n" + UserText(y)
  {
    hide Join, TextsOf;
    TextsConcat(a, b);
    if TextsOf(a) == [] {
      assert TextsOf(a) + TextsOf(b) == TextsOf(b);
    } else if TextsOf(b) == [] {
      assert TextsOf(a) + TextsOf(b) == TextsOf(a);
    } else {
      JoinConcat(TextsOf(a), TextsOf(b), "\n");
    }
  }

  // ----- real turns

  /** The prompts the harness itself sends. */
  predicate OwnPrompt(q: string) {
    q in ["", "__auto_continue__", AUTO_CONTINUE_PROMPT]
  }

  /** A wrapped prompt that comes back whole is a turn of the user exactly when it has an image or the
      harness did not send it; the images may stand on either side. */
  lemma WrappedTurnIsReal(before: seq<ContentPart>, q: string, after: seq<ContentPart>, turn: TurnMeta)
    requires Carriable(q) && TextsOf(before) == [] && TextsOf(after) == []
    ensures IsRealUserTurn(User(before + [Text(WrapUserQuery(q))] + after, None, turn)) <==>
            ImagesOf(before + after) != [] || !OwnPrompt(q)
  {
    hide Carriable, WrapUserQuery, ExtractUserQuery, IsSyntheticQuery, OwnPrompt, Join;
    var middle := [Text(WrapUserQuery(q))];
    TextsConcat(before + middle, after);
    TextsConcat(before, middle);
    OneText(WrapUserQuery(q));
    ImagesConcat(before + middle, after);
    ImagesConcat(before, middle);
    ImagesConcat(before, after);
    WrapOpensFirst(q);
    ExtractReturnsExactlyCarriable("", q);
    assert "" + WrapUserQuery(q) == WrapUserQuery(q);
    OwnPromptMeans(q);
  }

  lemma OneText(s: string)
    ensures TextsOf([Text(s)]) == [s] && Join([s], "\n") == s && ImagesOf([Text(s)]) == []
  {
    assert [Text(s)][1..] == [];
  }

  lemma OwnPromptMeans(q: string)
    ensures OwnPrompt(q) <==> IsSyntheticQuery(q)
  {
  }
}
