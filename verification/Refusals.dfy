/**
 What `decrypt` must not open: a wire it has opened before, and one whose header
 names another session, conversation or recipient than the state is bound to.
 */
module Refusals {
  import opened Wrappers
  import opened Keys
  import opened Ratchet
  import opened RatchetOnce
  import Text

  /** The authenticated header of an opened wire names what the state is bound to, where that is set. */
  lemma OpenedNamesState(s: State, w: Wire, own: Pub)
    requires Decrypt(s, w, own).Opened?
    ensures w.ct.BodyBox? && var named := w.ct.aad.ctx;
      && (s.ctx.sid != "" ==> named.sid == s.ctx.sid)
      && (s.ctx.conversation != 0 ==> named.conversation == s.ctx.conversation)
      && (s.ctx.me != 0 ==> named.peer == s.ctx.me)
      && ReadHeader(s.recv.hk, w) == Some(w.ct.aad)
  {
  }

  /** A visible header that names anything else is refused with its own error, and the state is untouched. */
  lemma ForeignIsRefused(s: State, w: Wire, own: Pub)
    requires w.h.Some?
    ensures var c, named, d := s.ctx, w.h.value.ctx, Decrypt(s, w, own);
      var session := c.sid != "" && named.sid != c.sid;
      var conversation := c.conversation != 0 && named.conversation != c.conversation;
      var recipient := c.me != 0 && named.peer != c.me;
      && (session <==> d == Refused(s, SessionMismatch))
      && (!session && conversation <==> d == Refused(s, ConversationMismatch))
      && (!session && !conversation && recipient <==> d == Refused(s, RecipientMismatch))
  {
    if CheckHeader(s.ctx, s.seen, w.h.value).None? { LaterErrors(s, w, own); }
  }

  /** Once its checks are passed `decrypt` fails for other reasons. */
  lemma LaterErrors(s: State, w: Wire, own: Pub)
    requires w.h.Some? && CheckHeader(s.ctx, s.seen, w.h.value).None?
    ensures var d := Decrypt(s, w, own); d.Refused? ==> d.error in {BadPublicKey, TooManySkipped, CannotOpen}
  {
  }

  /**
   A header of the current chain that passes and whose key is not stored: past the skip
   limit nothing moves, within it the box must be that of its index under its header.
   */
  lemma CurrentChainOpensIff(s: State, w: Wire, own: Pub)
    requires w.h.Some? && w.h.value.dh == s.recv.remote != "" && SkipId(w.h.value.dh, w.h.value.n) !in s.recv.skipped
    requires CheckHeader(s.ctx, s.seen, w.h.value).None? && s.recv.n <= w.h.value.n
    ensures var h, d := w.h.value, Decrypt(s, w, own); var gap := h.n - s.recv.n;
      && (d == Refused(s, TooManySkipped) <==> |s.recv.skipped| + gap > 1000)
      && (d.Opened? <==> |s.recv.skipped| + gap <= 1000 && w.ct.BodyBox? && w.ct.aad == h && w.ct.key == CkMsg(Advance(s.recv.ck, gap)))
      && (d.Opened? ==> d.body == w.ct.body && d.state.recv.n == h.n + 1 && d.state.seen == s.seen + {MessageId(h)})
      && (d.Refused? && d.error != TooManySkipped ==> d.error == CannotOpen)
  {
    OnCurrentChain(s, w, own, w.h.value);
    SkipsTo(s.recv, w.h.value.n);
  }

  lemma OnCurrentChain(s: State, w: Wire, own: Pub, h: Header)
    requires w.h == Some(h) && h.dh == s.recv.remote != "" && SkipId(h.dh, h.n) !in s.recv.skipped && CheckHeader(s.ctx, s.seen, h).None?
    ensures Decrypt(s, w, own) == OpenInChain(s, w, h)
  {
  }

  lemma SkipsTo(r: Receiving, n: nat)
    requires r.n <= n
    ensures SkipUntil(r, n).Some? <==> |r.skipped| + (n - r.n) <= 1000
    ensures SkipUntil(r, n).Some? ==> SkipUntil(r, n).value.ck == Advance(r.ck, n - r.n) && SkipUntil(r, n).value.n == n
  {
    if FitsSkip(r, n - r.n) { StoreSkippedFacts(r, n); }
  }

  /** A header with no key at all is refused only after the counters were reset: sending starts again at 0 on the old chain. */
  lemma NoKeyResetsCounters(s: State, w: Wire, own: Pub)
    requires w.h.Some? && w.h.value.dh == "" && SkipId("", w.h.value.n) !in s.recv.skipped && CheckHeader(s.ctx, s.seen, w.h.value).None?
    requires s.recv.remote != ""
    ensures Decrypt(s, w, own) == Refused(s.(send := s.send.(n := 0, pn := s.send.n), recv := s.recv.(remote := "", n := 0)), BadPublicKey)
  {
  }

  /** Above 4096 ids the 2048 largest are remembered, and never more of a state that was saved. */
  lemma WhatIsRemembered(full: set<string>, kept: set<string>, saved: State, restored: State)
    ensures Remembers(full, kept) <==> if |full| > 4096 then Text.IsLargest(full, kept, 2048) else kept == full
    ensures Restores(saved, restored) ==> Text.IsLargest(saved.seen, restored.seen, 2048)
    ensures Restores(saved, restored) ==> restored.seen <= saved.seen && |restored.seen| <= 2048
  {
  }

  /** A wire that was opened is refused as a replay by every state that remembers it, and moves nothing. */
  lemma ReplayIsRefused(s: State, w: Wire, own: Pub, u: State, own2: Pub)
    requires Decrypt(s, w, own).Opened? && (w.h.Some? || u.recv.hk == s.recv.hk)
    requires var t := Decrypt(s, w, own).state; u.ctx == t.ctx && t.seen <= u.seen
    ensures Decrypt(u, w, own2) == Refused(u, Replayed)
  {
    var h := ReadHeader(s.recv.hk, w).value;
    DecryptKeepsContext(s, w, own);
    OpenedIsRemembered(s, w, own, h);
    assert ReadHeader(u.recv.hk, w) == Some(h);
  }

  lemma OpenedIsRemembered(s: State, w: Wire, own: Pub, h: Header)
    requires Decrypt(s, w, own).Opened? && ReadHeader(s.recv.hk, w) == Some(h)
    ensures CheckHeader(s.ctx, s.seen, h).None? && MessageId(h) in Decrypt(s, w, own).state.seen
  {
  }

  /** No event of the run forgets a message id. */
  ghost predicate Remembering(s: State, es: seq<Event>)
    decreases |es|
  {
    es == [] || (s.seen <= After(s, es[0]).seen && Remembering(After(s, es[0]), es[1..]))
  }

  lemma {:induction false} RunRemembers(s: State, es: seq<Event>)
    requires Remembering(s, es)
    ensures Run(s, es).ctx == s.ctx && s.seen <= Run(s, es).seen
    decreases |es|
  {
    if es != [] {
      if es[0].Receive? { DecryptKeepsContext(s, es[0].w, es[0].own); }
      RunRemembers(After(s, es[0]), es[1..]);
    }
  }

  /**
   In any run that forgets no id, a wire with a visible header is a replay at every
   point after it was opened, whatever came between, and finds the state untouched.
   */
  lemma ReplayNeverMoves(s: State, w: Wire, own: Pub, remembered: set<string>, es: seq<Event>, own2: Pub)
    requires Decrypt(s, w, own).Opened? && w.h.Some? && Decrypt(s, w, own).state.seen <= remembered
    requires Remembering(Decrypt(s, w, own).state.(seen := remembered), es)
    ensures var u := Run(After(s, Receive(w, own, true, remembered)), es); Decrypt(u, w, own2) == Refused(u, Replayed)
  {
    var t := After(s, Receive(w, own, true, remembered));
    RunRemembers(t, es);
    ReplayIsRefused(s, w, own, Run(t, es), own2);
  }
}
