/** The user messages kept beside a Codex remote-compaction item: selection, the newest-first fit
    into a text budget, and the messages that arrive while the request is in flight. */
module RemoteTail {
  import opened Wrappers
  import opened Conversation
  import opened Utf8
  import opened Budget
  import opened Query

  // ----- costs

  /** `codex_remote_compaction_v2_text_tokens`: bytes over four, rounded up. */
  function TextTokens(bytes: nat): nat {
    (bytes + (BYTES_PER_TOKEN - 1)) / BYTES_PER_TOKEN
  }

  function PartTokens(part: ContentPart): nat {
    if part.Text? then TextTokens(Utf8Len(part.text)) else 0
  }

  function PartsTokens(parts: seq<ContentPart>): nat {
    if parts == [] then 0 else PartTokens(parts[0]) + PartsTokens(parts[1..])
  }

  /** `codex_remote_compaction_v2_user_text_tokens`: never free. */
  function UserTokens(item: Item): (n: nat)
    ensures item.User? ==> 1 <= n
  {
    if item.User? then Max(PartsTokens(item.parts), 1) else 0
  }

  function TotalTokens(users: seq<Item>): nat {
    if users == [] then 0 else TotalTokens(users[..|users| - 1]) + UserTokens(users[|users| - 1])
  }

  // ----- truncating the boundary message

  /** What is kept of one part with `remaining` tokens for text, and the tokens then left. */
  function CutPart(part: ContentPart, remaining: nat): (seq<ContentPart>, nat) {
    if part.Image? then ([part], remaining)
    else if remaining == 0 then ([], 0)
    else if PartTokens(part) <= remaining then ([part], remaining - PartTokens(part))
    else
      var kept := CutText(part.text, remaining * BYTES_PER_TOKEN);
      (if kept == "" then [] else [Text(kept)], 0)
  }

  /** Every image, and texts until the budget ends. */
  function CutParts(parts: seq<ContentPart>, remaining: nat): seq<ContentPart>
    decreases |parts|
  {
    if parts == [] then []
    else CutPart(parts[0], remaining).0 + CutParts(parts[1..], CutPart(parts[0], remaining).1)
  }

  /** `truncate_codex_remote_compaction_v2_user`. */
  function TruncatedUser(item: Item, maxTokens: nat): Option<Item>
    requires item.User?
  {
    var cut := item.(parts := CutParts(item.parts, maxTokens));
    if cut.parts == [] || UserTokens(cut) > maxTokens then None else Some(cut)
  }

  lemma CutPartsPush(done: seq<ContentPart>, parts: seq<ContentPart>, i: nat, remaining: nat)
    requires i < |parts|
    ensures var (kept, left) := CutPart(parts[i], remaining);
            done + CutParts(parts[i..], remaining) == done + kept + CutParts(parts[i + 1..], left)
  {
    hide CutPart;
    assert parts[i..][1..] == parts[i + 1..];
  }

  method TruncateParts(parts: seq<ContentPart>, maxTokens: nat) returns (retained: seq<ContentPart>)
    ensures retained == CutParts(parts, maxTokens)
  {
    hide CutText, PartTokens, CutParts;
    var remaining: nat := maxTokens;
    retained := [];
    NoParts(maxTokens);
    assert parts[0..] == parts;
    for i := 0 to |parts|
      invariant retained + CutParts(parts[i..], remaining) == CutParts(parts, maxTokens)
    {
      var part := parts[i];
      CutPartsPush(retained, parts, i, remaining);
      ghost var before := retained;
      ghost var (piece, left) := CutPart(part, remaining);
      if part.Image? {
        retained := retained + [part];
      } else if remaining > 0 {
        if PartTokens(part) <= remaining {
          remaining := remaining - PartTokens(part);
          retained := retained + [part];
        } else {
          var kept := CutText(part.text, remaining * BYTES_PER_TOKEN);
          remaining := 0;
          if kept != "" {
            retained := retained + [Text(kept)];
          }
        }
      }
      assert retained == before + piece && remaining == left;
    }
    assert parts[|parts|..] == [] && retained + [] == retained;
    NoParts(remaining);
  }

  lemma NoParts(remaining: nat)
    ensures CutParts([], remaining) == []
  {
  }

  method TruncateUser(item: Item, maxTokens: nat) returns (r: Option<Item>)
    requires item.User?
    ensures r == TruncatedUser(item, maxTokens)
  {
    hide CutParts;
    var retained := TruncateParts(item.parts, maxTokens);
    var cut := item.(parts := retained);
    if cut.parts == [] || UserTokens(cut) > maxTokens {
      return None;
    }
    return Some(cut);
  }

  lemma {:induction false} PartsTokensConcat(a: seq<ContentPart>, b: seq<ContentPart>)
    ensures PartsTokens(a + b) == PartsTokens(a) + PartsTokens(b)
    ensures ImagesOf(a + b) == ImagesOf(a) + ImagesOf(b)
  {
    hide PartTokens;
    ImagesConcat(a, b);
    hide ImagesOf;
    if a == [] {
      assert a + b == b;
    } else {
      PartsTokensConcat(a[1..], b);
      assert (a + b)[1..] == a[1..] + b;
    }
  }

  lemma CutPartWithin(part: ContentPart, remaining: nat)
    ensures PartsTokens(CutPart(part, remaining).0) + CutPart(part, remaining).1 <= remaining
    ensures ImagesOf(CutPart(part, remaining).0) == ImagesOf([part])
  {
    hide CutText, TextTokens, Utf8Len;
    var (kept, left) := CutPart(part, remaining);
    if part.Text? && remaining > 0 && PartTokens(part) > remaining {
      TokensOfCut(part.text, remaining);
    }
    assert kept == [] || kept[1..] == [];
    assert [part][1..] == [];
  }

  /** The cut stays within the budget and keeps every image, in order. */
  lemma {:induction false} CutPartsWithin(parts: seq<ContentPart>, remaining: nat)
    ensures PartsTokens(CutParts(parts, remaining)) <= remaining
    ensures ImagesOf(CutParts(parts, remaining)) == ImagesOf(parts)
    decreases |parts|
  {
    hide CutPart, PartTokens;
    if parts != [] {
      var (kept, left) := CutPart(parts[0], remaining);
      CutPartWithin(parts[0], remaining);
      CutPartsWithin(parts[1..], left);
      PartsTokensConcat(kept, CutParts(parts[1..], left));
      PartsTokensConcat([parts[0]], parts[1..]);
      assert parts == [parts[0]] + parts[1..];
    }
  }

  lemma TokensOfCut(text: string, remaining: nat)
    requires PartTokens(Text(text)) > remaining
    ensures TextTokens(Utf8Len(CutText(text, remaining * BYTES_PER_TOKEN))) <= remaining
    ensures remaining > 0 ==> CutText(text, remaining * BYTES_PER_TOKEN) != ""
  {
    hide TruncateText, Utf8Len;
    assert Utf8Len(text) > remaining * BYTES_PER_TOKEN;
    if remaining > 0 {
      NonEmptyText(text, remaining * BYTES_PER_TOKEN);
      TruncateKeepsSomething(text, remaining * BYTES_PER_TOKEN);
    }
  }

  lemma NonEmptyText(text: string, n: nat)
    requires Utf8Len(text) > n
    ensures text != ""
  {
  }

  /** With a token left, some part of every nonempty message is kept. */
  lemma CutPartsKeepsSomething(parts: seq<ContentPart>, remaining: nat)
    requires parts != [] && remaining >= 1
    ensures CutParts(parts, remaining) != []
  {
    hide CutText, PartTokens;
    if parts[0].Text? && PartTokens(parts[0]) > remaining {
      TokensOfCut(parts[0].text, remaining);
    }
    assert CutPart(parts[0], remaining).0 != [];
  }

  /** A nonempty boundary message with at least one token left is never dropped: the final cost
      guard always passes. It keeps all its images and costs at most what is left. */
  lemma BoundaryNeverDropped(item: Item, remaining: nat)
    requires item.User? && item.parts != [] && remaining >= 1
    ensures TruncatedUser(item, remaining).Some?
    ensures var cut := TruncatedUser(item, remaining).value;
            cut.User? && UserTokens(cut) <= remaining && ImagesOf(cut.parts) == ImagesOf(item.parts) &&
            cut.reason == item.reason && cut.turn == item.turn
  {
    CutPartsWithin(item.parts, remaining);
    CutPartsKeepsSomething(item.parts, remaining);
  }

  // ----- the newest-first fit

  ghost predicate AllUsers(users: seq<Item>) {
    forall i :: 0 <= i < |users| ==> users[i].User?
  }

  /** `fit_codex_remote_compaction_v2_user_tail`. */
  function FittedTail(users: seq<Item>, remaining: nat): seq<Item>
    requires AllUsers(users)
  {
    if users == [] || remaining == 0 then []
    else
      var item, older := users[|users| - 1], users[..|users| - 1];
      if UserTokens(item) <= remaining then FittedTail(older, remaining - UserTokens(item)) + [item]
      else Boundary(item, remaining)
  }

  /** What is left of the message that does not fit whole. */
  function Boundary(item: Item, remaining: nat): seq<Item>
    requires item.User?
  {
    match TruncatedUser(item, remaining) case Some(cut) => [cut] case None => []
  }

  function Reversed(s: seq<Item>): (r: seq<Item>)
    ensures |r| == |s| && forall i :: 0 <= i < |s| ==> r[i] == s[|s| - 1 - i]
  {
    if s == [] then [] else Reversed(s[1..]) + [s[0]]
  }

  method FitUserTail(users: seq<Item>, maxTokens: nat) returns (r: seq<Item>)
    requires AllUsers(users)
    ensures r == FittedTail(users, maxTokens)
  {
    hide TruncatedUser, UserTokens, FittedTail, Reversed, Boundary;
    var remaining: nat := maxTokens;
    var reversed := [];
    var i := |users|;
    NothingReversed();
    assert users[..i] == users && FittedTail(users, maxTokens) + [] == FittedTail(users, maxTokens);
    while i > 0 && remaining > 0
      invariant 0 <= i <= |users|
      invariant FittedTail(users[..i], remaining) + Reversed(reversed) == FittedTail(users, maxTokens)
    {
      var item := users[i - 1];
      assert users[..i][..i - 1] == users[..i - 1];
      FittedStep(users[..i], remaining, Reversed(reversed));
      var cost := UserTokens(item);
      ReversedSnoc(reversed, item);
      if cost > remaining {
        var cut := TruncateUser(item, remaining);
        BoundaryMeans(item, remaining);
        if cut.Some? {
          ReversedSnoc(reversed, cut.value);
          reversed := reversed + [cut.value];
        } else {
          assert [] + Reversed(reversed) == Reversed(reversed);
        }
        return Reversed(reversed);
      }
      remaining := remaining - cost;
      reversed := reversed + [item];
      i := i - 1;
    }
    FittedEnds(users[..i], remaining, Reversed(reversed));
    r := Reversed(reversed);
  }

  lemma NothingReversed()
    ensures Reversed([]) == []
  {
  }

  lemma BoundaryMeans(item: Item, remaining: nat)
    requires item.User?
    ensures Boundary(item, remaining) ==
            match TruncatedUser(item, remaining) case None => [] case Some(cut) => [cut]
  {
    hide TruncatedUser;
  }

  lemma FittedStep(users: seq<Item>, remaining: nat, tail: seq<Item>)
    requires AllUsers(users) && users != [] && remaining > 0
    ensures var item, older := users[|users| - 1], users[..|users| - 1];
            FittedTail(users, remaining) + tail ==
            if UserTokens(item) > remaining then Boundary(item, remaining) + tail
            else FittedTail(older, remaining - UserTokens(item)) + ([item] + tail)
  {
    hide UserTokens, Boundary;
  }

  lemma FittedEnds(users: seq<Item>, remaining: nat, tail: seq<Item>)
    requires AllUsers(users) && (users == [] || remaining == 0)
    ensures FittedTail(users, remaining) + tail == tail
  {
  }

  lemma {:induction false} ReversedSnoc(s: seq<Item>, x: Item)
    ensures Reversed(s + [x]) == [x] + Reversed(s)
  {
    if s == [] {
      assert [] + [x] == [x];
    } else {
      ReversedSnoc(s[1..], x);
      assert (s + [x])[1..] == s[1..] + [x];
    }
  }

  lemma TotalSnoc(users: seq<Item>, x: Item)
    ensures TotalTokens(users + [x]) == TotalTokens(users) + UserTokens(x)
  {
    assert (users + [x])[..|users|] == users;
  }

  /** The messages kept never cost more than the budget. */
  lemma {:induction false} FittedTailWithin(users: seq<Item>, budget: nat)
    requires AllUsers(users)
    ensures AllUsers(FittedTail(users, budget)) && TotalTokens(FittedTail(users, budget)) <= budget
  {
    hide UserTokens, Boundary, TotalTokens;
    TotalOfNone();
    if users != [] && budget > 0 {
      var item, older := users[|users| - 1], users[..|users| - 1];
      if UserTokens(item) <= budget {
        FittedTailWithin(older, budget - UserTokens(item));
        TotalSnoc(FittedTail(older, budget - UserTokens(item)), item);
      } else {
        BoundaryWithin(item, budget);
      }
    }
  }

  lemma BoundaryWithin(item: Item, budget: nat)
    requires item.User?
    ensures AllUsers(Boundary(item, budget)) && TotalTokens(Boundary(item, budget)) <= budget
  {
    hide UserTokens, CutParts;
    var r := Boundary(item, budget);
    if r != [] {
      TotalSnoc([], r[0]);
      assert [] + [r[0]] == r;
    }
  }

  lemma TotalOfNone()
    ensures TotalTokens([]) == 0
  {
  }

  lemma SuffixSnoc(users: seq<Item>, k: nat)
    requires k < |users|
    ensures var older, item := users[..|users| - 1], users[|users| - 1];
            users[k..] == older[k..] + [item] && TotalTokens(users[k..]) == TotalTokens(older[k..]) + UserTokens(item)
  {
    hide TotalTokens, UserTokens;
    TotalSnoc(users[..|users| - 1][k..], users[|users| - 1]);
  }

  lemma FittedSnoc(users: seq<Item>, budget: nat)
    requires AllUsers(users) && users != [] && budget > 0 && UserTokens(users[|users| - 1]) <= budget
    ensures var older, item := users[..|users| - 1], users[|users| - 1];
            FittedTail(users, budget) == FittedTail(older, budget - UserTokens(item)) + [item]
  {
    hide UserTokens, Boundary;
  }

  lemma Regroup(a: seq<Item>, b: seq<Item>, x: Item)
    ensures a + b + [x] == a + (b + [x])
  {
  }

  /** The fit is the longest suffix within the budget, preceded by what is left of the message before
      it when any budget remains. */
  lemma {:induction false} FittedTailIsLongest(users: seq<Item>, budget: nat) returns (k: nat)
    requires AllUsers(users)
    ensures k <= |users| && TotalTokens(users[k..]) <= budget
    ensures k > 0 ==> budget < TotalTokens(users[k - 1..])
    ensures FittedTail(users, budget) ==
            (if k > 0 && TotalTokens(users[k..]) < budget then Boundary(users[k - 1], budget - TotalTokens(users[k..])) else []) +
            users[k..]
  {
    hide Boundary, UserTokens, TotalTokens;
    TotalOfNone();
    if users == [] {
      k := 0;
    } else {
      var n := |users| - 1;
      var item, older := users[n], users[..n];
      if budget > 0 && UserTokens(item) <= budget {
        var left := budget - UserTokens(item);
        k := FittedTailIsLongest(older, left);
        SuffixSnoc(users, k);
        var kept := TotalTokens(older[k..]);
        var front := if k > 0 && kept < left then Boundary(older[k - 1], left - kept) else [];
        if k > 0 {
          SuffixSnoc(users, k - 1);
        }
        FittedSnoc(users, budget);
        Regroup(front, older[k..], item);
        assert FittedTail(users, budget) == front + users[k..];
      } else {
        k := |users|;
        assert users[k..] == [] && users[n..] == [] + [item];
        TotalSnoc([], item);
      }
    }
  }

  /** Messages already within the budget all stay; so fitting twice equals fitting once. */
  lemma {:induction false} WithinBudgetAllKept(users: seq<Item>, budget: nat)
    requires AllUsers(users) && TotalTokens(users) <= budget
    ensures FittedTail(users, budget) == users
  {
    hide TruncatedUser, PartsTokens;
    if users != [] {
      WithinBudgetAllKept(users[..|users| - 1], budget - UserTokens(users[|users| - 1]));
    }
  }

  lemma FitIsIdempotent(users: seq<Item>, budget: nat)
    requires AllUsers(users)
    ensures AllUsers(FittedTail(users, budget))
    ensures FittedTail(FittedTail(users, budget), budget) == FittedTail(users, budget)
  {
    FittedTailWithin(users, budget);
    WithinBudgetAllKept(FittedTail(users, budget), budget);
  }

  // ----- which messages are retained

  function RetainedParts(parts: seq<ContentPart>): seq<ContentPart> {
    if parts == [] then []
    else if parts[0].Image? then [parts[0]] + RetainedParts(parts[1..])
    else
      var q := ExtractUserQuery(parts[0].text);
      if q == "" then RetainedParts(parts[1..]) else [Text(q)] + RetainedParts(parts[1..])
  }

  predicate IsRetained(item: Item) {
    item.User? && (item.reason == Some(Interjection) || (item.reason.None? && IsRealUserTurn(item)))
  }

  /** `codex_remote_compaction_v2_user`. */
  function RetainedUser(item: Item): (r: Option<Item>)
    ensures r.Some? ==> item.User? && r.value.User? && r.value.parts != [] && r.value.reason == item.reason
  {
    if !IsRetained(item) then None
    else
      var user := item.(parts := RetainedParts(item.parts));
      if user.parts == [] then None else Some(user)
  }

  function RetainedUsers(h: seq<Item>): (r: seq<Item>)
    ensures AllUsers(r) && forall i :: 0 <= i < |r| ==> r[i].parts != []
  {
    if h == [] then []
    else
      var rest := RetainedUsers(h[..|h| - 1]);
      match RetainedUser(h[|h| - 1]) case Some(user) => rest + [user] case None => rest
  }

  const RETAINED_USER_TOKENS: nat := 64_000

  /** `build_codex_remote_compaction_v2_history`. */
  function RemoteHistory(prompt: seq<Item>, compaction: Item): seq<Item> {
    FittedTail(RetainedUsers(prompt), RETAINED_USER_TOKENS) + [compaction]
  }

  /** The replayed history is a budgeted tail of genuine user messages and then the summary item. */
  lemma RemoteHistoryTail(prompt: seq<Item>, compaction: Item)
    ensures var r := RemoteHistory(prompt, compaction);
            && r[|r| - 1] == compaction
            && AllUsers(r[..|r| - 1]) && TotalTokens(r[..|r| - 1]) <= RETAINED_USER_TOKENS
            && (RetainedUsers(prompt) != [] ==> |r| >= 2)
  {
    hide FittedTail, TotalTokens, RetainedUsers;
    var users := RetainedUsers(prompt);
    var kept := FittedTail(users, RETAINED_USER_TOKENS);
    FittedTailWithin(users, RETAINED_USER_TOKENS);
    assert (kept + [compaction])[..|kept|] == kept;
    if users != [] {
      NewestIsKept(users, RETAINED_USER_TOKENS);
    }
  }

  /** The newest message always leaves something. */
  lemma NewestIsKept(users: seq<Item>, budget: nat)
    requires AllUsers(users) && users != [] && users[|users| - 1].parts != [] && budget >= 1
    ensures FittedTail(users, budget) != []
  {
    hide TruncatedUser, UserTokens;
    BoundaryNeverDropped(users[|users| - 1], budget);
  }

  // ----- messages that arrive in flight

  /** `codex_remote_compaction_v2_interjections`. */
  function Interjections(snapshot: seq<Item>, current: seq<Item>): Option<seq<Item>> {
    if |current| < |snapshot| then None
    else if forall i :: 0 <= i < |snapshot| ==> snapshot[i] == current[i]
    then Some(RetainedUsers(current[|snapshot|..]))
    else None
  }

  lemma {:induction false} RetainedConcat(a: seq<Item>, b: seq<Item>)
    ensures RetainedUsers(a + b) == RetainedUsers(a) + RetainedUsers(b)
  {
    hide RetainedUser;
    if b == [] {
      assert a + b == a;
    } else {
      RetainedConcat(a, b[..|b| - 1]);
      assert (a + b)[..|a + b| - 1] == a + b[..|b| - 1];
    }
  }

  function AppendAll(snapshot: seq<Item>, appends: seq<seq<Item>>): seq<Item>
    decreases |appends|
  {
    if appends == [] then snapshot else AppendAll(snapshot + appends[0], appends[1..])
  }

  /** Answered exactly when the snapshot is still a prefix, and then no retained message of the
      current history is lost: those of the snapshot, then the interjections. */
  lemma InterjectionsLoseNothing(snapshot: seq<Item>, current: seq<Item>)
    ensures Interjections(snapshot, current).Some? <==> snapshot <= current
    ensures snapshot <= current ==>
              RetainedUsers(current) == RetainedUsers(snapshot) + Interjections(snapshot, current).value
  {
    hide RetainedUsers;
    if snapshot <= current {
      RetainedConcat(snapshot, current[|snapshot|..]);
      assert current == snapshot + current[|snapshot|..];
    }
  }

  /** Any sequence of appends keeps the snapshot installable. */
  lemma {:induction false} AppendsAreSafe(snapshot: seq<Item>, current: seq<Item>, appends: seq<seq<Item>>)
    requires snapshot <= current
    ensures Interjections(snapshot, AppendAll(current, appends)).Some?
    decreases |appends|
  {
    hide RetainedUsers;
    if appends == [] {
      InterjectionsLoseNothing(snapshot, current);
    } else {
      AppendsAreSafe(snapshot, current + appends[0], appends[1..]);
    }
  }
}
