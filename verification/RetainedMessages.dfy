/** What the messages kept beside a remote-compaction item hold: which messages are kept, and that
    their queries and images are kept in order. */
module RetainedMessages {
  import opened Wrappers
  import opened Conversation
  import opened Utf8
  import opened Budget
  import opened Query
  import opened RemoteTail
  import opened TailUnit

  // ----- one message

  /** The texts that hold a query, reduced to it. */
  function Queries(texts: seq<string>): seq<string> {
    if texts == [] then []
    else
      var q := ExtractUserQuery(texts[0]);
      (if q == "" then [] else [q]) + Queries(texts[1..])
  }

  /** All images stay, each text becomes its query, and texts without one go. */
  lemma {:induction false} PartsKept(parts: seq<ContentPart>)
    ensures ImagesOf(RetainedParts(parts)) == ImagesOf(parts)
    ensures TextsOf(RetainedParts(parts)) == Queries(TextsOf(parts))
  {
    hide ExtractUserQuery;
    if parts != [] {
      PartsKept(parts[1..]);
      var rest := RetainedParts(parts[1..]);
      forall p ensures ([p] + rest)[1..] == rest {}
      if parts[0].Text? {
        var q := ExtractUserQuery(parts[0].text);
        assert [] + Queries(TextsOf(parts[1..])) == Queries(TextsOf(parts[1..]));
        assert TextsOf(parts) == [parts[0].text] + TextsOf(parts[1..]);
      }
    }
  }

  /** What becomes of one part. */
  function KeptPart(part: ContentPart): seq<ContentPart> {
    if part.Image? then [part]
    else if ExtractUserQuery(part.text) == "" then [] else [Text(ExtractUserQuery(part.text))]
  }

  lemma PartsKeptCons(parts: seq<ContentPart>)
    requires parts != []
    ensures RetainedParts(parts) == KeptPart(parts[0]) + RetainedParts(parts[1..])
  {
    hide ExtractUserQuery;
    assert [] + RetainedParts(parts[1..]) == RetainedParts(parts[1..]);
  }

  /** The order of texts and images stays: parts are treated one by one. */
  lemma {:induction false} PartsKeptInOrder(a: seq<ContentPart>, part: ContentPart, b: seq<ContentPart>)
    ensures RetainedParts(a + [part] + b) == RetainedParts(a) + KeptPart(part) + RetainedParts(b)
    decreases |a|
  {
    hide KeptPart, RetainedParts;
    var all := a + [part] + b;
    PartsKeptCons(all);
    if a == [] {
      NoPartsKept();
      assert all[0] == part && all[1..] == b;
      assert [] + KeptPart(part) == KeptPart(part);
    } else {
      PartsKeptCons(a);
      PartsKeptInOrder(a[1..], part, b);
      assert all[0] == a[0] && all[1..] == a[1..] + [part] + b;
      Regrouped(KeptPart(a[0]), RetainedParts(a[1..]), KeptPart(part), RetainedParts(b));
    }
  }

  lemma NoPartsKept()
    ensures RetainedParts([]) == []
  {
  }

  lemma Regrouped(a: seq<ContentPart>, b: seq<ContentPart>, c: seq<ContentPart>, d: seq<ContentPart>)
    ensures a + (b + c + d) == a + b + c + d
  {
  }

  /** A genuine message: an interjection, or a real turn, with an image or a query. */
  predicate IsGenuine(item: Item) {
    && item.User?
    && (item.reason == Some(Interjection) || IsRealUserTurn(item))
    && (ImagesOf(item.parts) != [] || Queries(TextsOf(item.parts)) != [])
  }

  lemma NothingKeptIff(parts: seq<ContentPart>)
    ensures parts == [] <==> ImagesOf(parts) == [] && TextsOf(parts) == []
  {
  }

  /** Exactly the genuine messages are kept, with all their images, their queries in order, and their
      metadata. */
  lemma KeptIffGenuine(item: Item)
    ensures RetainedUser(item).Some? <==> IsGenuine(item)
    ensures IsGenuine(item) ==>
              var r := RetainedUser(item).value;
              && r.User? && r.reason == item.reason && r.turn == item.turn
              && ImagesOf(r.parts) == ImagesOf(item.parts) && TextsOf(r.parts) == Queries(TextsOf(item.parts))
  {
    hide IsRealUserTurn, RetainedParts, TextsOf, ImagesOf, Queries;
    if item.User? {
      PartsKept(item.parts);
      NothingKeptIff(RetainedParts(item.parts));
      RealHasNoReason(item);
    }
  }

  lemma RealHasNoReason(item: Item)
    ensures IsRealUserTurn(item) ==> item.User? && item.reason.None?
  {
  }

  // ----- a whole history

  /** The genuine messages of a history, in order. */
  function Genuine(h: seq<Item>): seq<Item> {
    if h == [] then []
    else Genuine(h[..|h| - 1]) + if IsGenuine(h[|h| - 1]) then [h[|h| - 1]] else []
  }

  /** `r` is the message `item` reduced to its images and queries. */
  predicate Reduces(item: Item, r: Item) {
    && item.User? && r.User? && r.reason == item.reason && r.turn == item.turn
    && ImagesOf(r.parts) == ImagesOf(item.parts) && TextsOf(r.parts) == Queries(TextsOf(item.parts))
  }

  lemma {:induction false} RetainedAreGenuine(h: seq<Item>)
    ensures |RetainedUsers(h)| == |Genuine(h)|
    ensures forall i :: 0 <= i < |Genuine(h)| ==> Reduces(Genuine(h)[i], RetainedUsers(h)[i])
  {
    hide RetainedUser, IsGenuine, ImagesOf, TextsOf, Queries;
    if h != [] {
      RetainedAreGenuine(h[..|h| - 1]);
      KeptIffGenuine(h[|h| - 1]);
      GenuineIsUser(h[|h| - 1]);
    }
  }

  lemma GenuineIsUser(item: Item)
    ensures IsGenuine(item) ==> item.User?
  {
  }

  lemma BoundaryImages(item: Item, remaining: nat)
    requires item.User? && item.parts != [] && remaining >= 1
    ensures |Boundary(item, remaining)| == 1
    ensures var cut := Boundary(item, remaining)[0];
            cut.User? && ImagesOf(cut.parts) == ImagesOf(item.parts) && cut.reason == item.reason && cut.turn == item.turn
  {
    hide TruncatedUser, ImagesOf;
    BoundaryNeverDropped(item, remaining);
  }

  /** `kept` are the newest messages: all whole but the first, which keeps its images. */
  predicate NewestKept(users: seq<Item>, k: nat, kept: seq<Item>) {
    && |kept| <= |users| && k == |users| - |kept|
    && (forall i :: 1 <= i < |kept| ==> kept[i] == users[k + i])
    && forall i :: 0 <= i < |kept| ==>
         users[k + i].User? && kept[i].User? && kept[i].reason == users[k + i].reason && kept[i].turn == users[k + i].turn
         && ImagesOf(kept[i].parts) == ImagesOf(users[k + i].parts)
  }

  lemma FittedKeepsImages(users: seq<Item>, budget: nat)
    requires AllUsers(users) && forall i :: 0 <= i < |users| ==> users[i].parts != []
    ensures var kept := FittedTail(users, budget);
            |kept| <= |users| && NewestKept(users, |users| - |kept|, kept)
  {
    hide FittedTail, Boundary, TotalTokens, ImagesOf;
    var k := FittedTailIsLongest(users, budget);
    var left := budget - TotalTokens(users[k..]);
    if k > 0 && left > 0 {
      BoundaryImages(users[k - 1], left);
    }
  }

  /** The replayed history holds the newest genuine messages of the prompt in order, none skipped,
      each with all its images; every one but the oldest kept has all its queries; the compaction
      item is last. */
  lemma RemoteHistoryKeepsImages(prompt: seq<Item>, compaction: Item) returns (k: nat)
    ensures var r, all := RemoteHistory(prompt, compaction), Genuine(prompt);
            && k <= |all| && |r| == |all| - k + 1 && r[|r| - 1] == compaction
            && (all != [] ==> k < |all|)
            && (forall i :: 0 <= i < |r| - 1 ==>
                  && all[k + i].User? && r[i].User? && r[i].reason == all[k + i].reason && r[i].turn == all[k + i].turn
                  && ImagesOf(r[i].parts) == ImagesOf(all[k + i].parts))
            && (forall i :: 1 <= i < |r| - 1 ==> TextsOf(r[i].parts) == Queries(TextsOf(all[k + i].parts)))
  {
    hide FittedTail, RetainedUsers, Genuine, ImagesOf, TextsOf, Queries;
    var users := RetainedUsers(prompt);
    RetainedAreGenuine(prompt);
    FittedKeepsImages(users, RETAINED_USER_TOKENS);
    RemoteHistoryTail(prompt, compaction);
    var kept := FittedTail(users, RETAINED_USER_TOKENS);
    k := |users| - |kept|;
  }

  // ----- the text of the boundary message

  /** Part `m` is the first text the budget does not cover whole, or finds used up. */
  predicate StopsAt(parts: seq<ContentPart>, budget: nat, m: nat) {
    && m <= |parts| && PartsTokens(parts[..m]) <= budget
    && (forall i :: 0 <= i < m && parts[i].Text? ==> PartsTokens(parts[..i]) < budget)
    && (m < |parts| ==> parts[m].Text? && (PartsTokens(parts[..m]) == budget || PartsTokens(parts[..m + 1]) > budget))
  }

  /** `r` is the parts with the text cut at part `m`: the parts before it whole, its text cut to what
      the budget has left, and of the rest only the images. */
  ghost predicate IsCutMessage(parts: seq<ContentPart>, budget: nat, m: nat, r: seq<ContentPart>)
    requires StopsAt(parts, budget, m)
  {
    var left := budget - PartsTokens(parts[..m]);
    if m == |parts| then r == parts
    else if left == 0 then r == parts[..m] + ImagesOf(parts[m + 1..])
    else
      && |r| > m && r[m].Text? && IsCut(parts[m].text, left * 4, r[m].text)
      && r == parts[..m] + [r[m]] + ImagesOf(parts[m + 1..])
  }

  lemma {:induction false} ImagesOnly(parts: seq<ContentPart>)
    ensures CutParts(parts, 0) == ImagesOf(parts)
  {
    hide CutText, PartTokens;
    if parts != [] {
      ImagesOnly(parts[1..]);
      assert [] + ImagesOf(parts[1..]) == ImagesOf(parts[1..]);
    }
  }

  lemma PrefixTokens(p: ContentPart, t: seq<ContentPart>, m: nat)
    requires m <= |t|
    ensures ([p] + t)[..m + 1] == [p] + t[..m]
    ensures PartsTokens(([p] + t)[..m + 1]) == PartTokens(p) + PartsTokens(t[..m])
  {
    hide PartTokens;
    assert ([p] + t[..m])[1..] == t[..m];
  }

  lemma StopsLater(p: ContentPart, t: seq<ContentPart>, budget: nat, n: nat)
    requires PartTokens(p) <= budget && (p.Text? ==> budget > 0) && StopsAt(t, budget - PartTokens(p), n)
    ensures StopsAt([p] + t, budget, n + 1)
    ensures PartsTokens(([p] + t)[..n + 1]) == PartTokens(p) + PartsTokens(t[..n])
  {
    hide PartTokens, PartsTokens;
    var parts := [p] + t;
    PrefixTokens(p, t, n);
    if n < |t| {
      PrefixTokens(p, t, n + 1);
    }
    forall i | 0 <= i < n + 1 && parts[i].Text? ensures PartsTokens(parts[..i]) < budget {
      if i > 0 {
        PrefixTokens(p, t, i - 1);
      } else {
        assert parts[..0] == [];
        NoTokens();
      }
    }
  }

  lemma NoTokens()
    ensures PartsTokens([]) == 0
  {
  }

  lemma CutLater(p: ContentPart, t: seq<ContentPart>, budget: nat, n: nat, r: seq<ContentPart>)
    requires PartTokens(p) <= budget && StopsAt(t, budget - PartTokens(p), n) && StopsAt([p] + t, budget, n + 1)
    requires PartsTokens(([p] + t)[..n + 1]) == PartTokens(p) + PartsTokens(t[..n])
    requires IsCutMessage(t, budget - PartTokens(p), n, r)
    ensures IsCutMessage([p] + t, budget, n + 1, [p] + r)
  {
    hide PartTokens, PartsTokens, IsCut, StopsAt, ImagesOf;
    StopsWithin(t, budget - PartTokens(p), n);
    var parts, r' := [p] + t, [p] + r;
    assert parts[..n + 1] == [p] + t[..n];
    if n < |t| {
      assert parts[n + 2..] == t[n + 1..] && parts[n + 1] == t[n];
      var images := ImagesOf(t[n + 1..]);
      if |r| > n {
        assert r'[n + 1] == r[n];
        assert [p] + (t[..n] + [r[n]] + images) == [p] + t[..n] + [r[n]] + images;
      }
      assert [p] + (t[..n] + images) == [p] + t[..n] + images;
    }
  }

  lemma StopsWithin(parts: seq<ContentPart>, budget: nat, m: nat)
    requires StopsAt(parts, budget, m)
    ensures m <= |parts| && PartsTokens(parts[..m]) <= budget
  {
  }

  lemma CutHere(p: ContentPart, t: seq<ContentPart>, budget: nat)
    requires p.Text? && (budget == 0 || PartTokens(p) > budget)
    ensures StopsAt([p] + t, budget, 0) && IsCutMessage([p] + t, budget, 0, CutParts([p] + t, budget))
  {
    hide CutText, PartTokens, IsCut;
    var parts := [p] + t;
    assert parts[..0] == [] && parts[..1] == [p] && parts[1..] == t && [p][1..] == [];
    ImagesOnly(t);
    var images := ImagesOf(t);
    if budget == 0 {
      assert CutParts(parts, 0) == [] + CutParts(t, 0);
      assert [] + [] + images == images;
    } else {
      TokensOfCut(p.text, budget);
      CutTextIsCut(p.text, budget * 4);
      var kept := Text(CutText(p.text, budget * 4));
      assert CutParts(parts, budget) == [kept] + images;
      assert [] + [kept] + images == [kept] + images;
    }
  }

  /** Truncating the parts of a message cuts its text once, where the budget ends, and keeps every
      image in its place among the texts kept. */
  lemma {:induction false} CutPartsForm(parts: seq<ContentPart>, budget: nat) returns (m: nat)
    ensures StopsAt(parts, budget, m) && IsCutMessage(parts, budget, m, CutParts(parts, budget))
  {
    hide CutText, PartTokens, IsCut, StopsAt, IsCutMessage;
    if parts == [] {
      m := 0;
      NothingCut(budget);
    } else {
      var p, t := parts[0], parts[1..];
      assert parts == [p] + t;
      ImageIsFree(p);
      if p.Text? && (budget == 0 || PartTokens(p) > budget) {
        m := 0;
        CutHere(p, t, budget);
      } else {
        var n := CutPartsForm(t, budget - PartTokens(p));
        m := n + 1;
        StopsLater(p, t, budget, n);
        CutLater(p, t, budget, n, CutParts(t, budget - PartTokens(p)));
        assert CutParts(parts, budget) == [p] + CutParts(t, budget - PartTokens(p));
      }
    }
  }

  lemma NothingCut(budget: nat)
    ensures StopsAt([], budget, 0) && IsCutMessage([], budget, 0, CutParts([], budget))
  {
    var none: seq<ContentPart> := [];
    assert none[..0] == none;
  }

  lemma ImageIsFree(p: ContentPart)
    ensures p.Image? ==> PartTokens(p) == 0
  {
  }
}
