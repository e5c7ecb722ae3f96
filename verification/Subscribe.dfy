/** internal/subscribe/resolver.go: what each declared subscription resolves to, stated as a plain
    scan over the offers. */
module Subscribe {
  import opened Base

  datatype SubscriptionEntry = SubscriptionEntry(canonical: string, name: string, path: Path)

  datatype Offer = Offer(folderID: string, title: string, fromPeerName: string, fromDeviceID: string)

  datatype Acceptance = Acceptance(subscription: SubscriptionEntry, offer: Offer)

  datatype Status = Accepted | Pending | Ambiguous

  /** The offer title a subscription asks for; blank when it names nothing. */
  function Wanted(sub: SubscriptionEntry): string {
    if sub.canonical != "" then sub.canonical
    else if sub.name != "" then "dk:" + sub.name
    else ""
  }

  /** The titled offers carrying `title`. */
  function Titled(offers: seq<Offer>, title: string): (r: seq<Offer>)
    ensures forall o :: o in r <==> o in offers && o.title == title && title != ""
  {
    if offers == [] then []
    else if offers[0].title == title && title != "" then [offers[0]] + Titled(offers[1..], title)
    else Titled(offers[1..], title)
  }

  /** The offers of folders this machine does not have yet. */
  function NotLocal(offers: seq<Offer>, local: set<string>): (r: seq<Offer>)
    ensures |r| <= |offers|
    ensures forall o :: o in r <==> o in offers && o.folderID !in local
  {
    if offers == [] then []
    else if offers[0].folderID !in local then [offers[0]] + NotLocal(offers[1..], local)
    else NotLocal(offers[1..], local)
  }

  function Candidates(sub: SubscriptionEntry, offers: seq<Offer>, local: set<string>): seq<Offer> {
    NotLocal(Titled(offers, Wanted(sub)), local)
  }

  ghost predicate OneFolder(cs: seq<Offer>) {
    forall a, b :: a in cs && b in cs ==> a.folderID == b.folderID
  }

  ghost function StatusOf(cs: seq<Offer>): Status {
    if cs == [] then Pending else if OneFolder(cs) then Accepted else Ambiguous
  }

  ghost function AcceptanceOf(sub: SubscriptionEntry, offers: seq<Offer>, local: set<string>): seq<Acceptance> {
    var cs := Candidates(sub, offers, local);
    if StatusOf(cs) == Accepted then [Acceptance(sub, cs[0])] else []
  }

  ghost function Acceptances(subs: seq<SubscriptionEntry>, offers: seq<Offer>, local: set<string>): seq<Acceptance> {
    if subs == [] then []
    else AcceptanceOf(subs[0], offers, local) + Acceptances(subs[1..], offers, local)
  }

  /** An acceptance is an offered folder the machine lacks, wanted by a declared subscription, and
      the only folder offered under that title. */
  lemma {:induction false} AcceptanceIsSound(subs: seq<SubscriptionEntry>, offers: seq<Offer>, local: set<string>,
                                             acc: Acceptance)
    ensures acc in Acceptances(subs, offers, local) ==>
              && acc.subscription in subs && acc.offer in offers
              && acc.offer.folderID !in local
              && acc.offer.title == Wanted(acc.subscription) != ""
              && forall o :: o in offers && o.title == acc.offer.title && o.folderID !in local ==>
                   o.folderID == acc.offer.folderID
  {
    if subs != [] {
      AcceptanceIsSound(subs[1..], offers, local, acc);
      var cs := Candidates(subs[0], offers, local);
      if StatusOf(cs) == Accepted && acc == Acceptance(subs[0], cs[0]) {
        assert cs[0] in cs && cs[0] in Titled(offers, Wanted(subs[0]));
        forall o | o in offers && o.title == acc.offer.title && o.folderID !in local
          ensures o.folderID == acc.offer.folderID
        {
          assert o in Titled(offers, Wanted(subs[0])) && o in cs;
        }
      }
    }
  }

  /** Conversely every subscription that resolves is accepted, from its first candidate. */
  lemma {:induction false} AcceptanceIsComplete(subs: seq<SubscriptionEntry>, offers: seq<Offer>, local: set<string>,
                                                sub: SubscriptionEntry)
    requires sub in subs && StatusOf(Candidates(sub, offers, local)) == Accepted
    ensures Acceptance(sub, Candidates(sub, offers, local)[0]) in Acceptances(subs, offers, local)
  {
    if sub != subs[0] { AcceptanceIsComplete(subs[1..], offers, local, sub); }
  }

  // ---------------------------------------------------------------- in terms of the declared fields

  /** The offer carries the subscription's canonical identity, or, where it has none, its name after `dk:`. */
  predicate Asks(sub: SubscriptionEntry, o: Offer) {
    || (sub.canonical != "" && o.title == sub.canonical)
    || (sub.canonical == "" && sub.name != "" && o.title == "dk:" + sub.name)
  }

  /** The offer is one the subscription asks for, of a folder this machine lacks. */
  predicate Eligible(sub: SubscriptionEntry, offers: seq<Offer>, local: set<string>, o: Offer) {
    o in offers && Asks(sub, o) && o.folderID !in local
  }

  ghost predicate Disagree(sub: SubscriptionEntry, offers: seq<Offer>, local: set<string>) {
    exists a, b :: Eligible(sub, offers, local, a) && Eligible(sub, offers, local, b) && a.folderID != b.folderID
  }

  lemma CandidatesAreEligible(sub: SubscriptionEntry, offers: seq<Offer>, local: set<string>)
    ensures forall o :: o in Candidates(sub, offers, local) <==> Eligible(sub, offers, local, o)
  {}

  /** What a subscription resolves to, by its fields: pending without an eligible offer, ambiguous when two of them name
      different folders, accepted otherwise. */
  lemma StatusByFields(sub: SubscriptionEntry, offers: seq<Offer>, local: set<string>)
    ensures
      var status := StatusOf(Candidates(sub, offers, local));
      && (status == Pending <==> forall o :: !Eligible(sub, offers, local, o))
      && (status == Ambiguous <==> Disagree(sub, offers, local))
  {
    hide Candidates, Eligible;
    CandidatesAreEligible(sub, offers, local);
    var cs := Candidates(sub, offers, local);
    if cs != [] { assert cs[0] in cs; }
  }

  /** An acceptance is of an eligible offer, for a subscription that is not ambiguous. */
  lemma AcceptedIsEligible(subs: seq<SubscriptionEntry>, offers: seq<Offer>, local: set<string>, acc: Acceptance)
    requires acc in Acceptances(subs, offers, local)
    ensures acc.subscription in subs && Eligible(acc.subscription, offers, local, acc.offer)
    ensures !Disagree(acc.subscription, offers, local)
  {
    hide Acceptances, Candidates;
    AcceptanceIsSound(subs, offers, local, acc);
  }

  /** Conversely a subscription with an eligible offer, and none that disagrees, is accepted. */
  lemma EligibleIsAccepted(subs: seq<SubscriptionEntry>, offers: seq<Offer>, local: set<string>,
                           sub: SubscriptionEntry, o: Offer) returns (acc: Acceptance)
    requires sub in subs && Eligible(sub, offers, local, o) && !Disagree(sub, offers, local)
    ensures acc in Acceptances(subs, offers, local) && acc.subscription == sub && acc.offer.folderID == o.folderID
  {
    hide Acceptances, Candidates, Asks;
    var cs := Candidates(sub, offers, local);
    CandidatesAreEligible(sub, offers, local);
    StatusByFields(sub, offers, local);
    assert cs[0] in cs && Eligible(sub, offers, local, cs[0]);
    AcceptanceIsComplete(subs, offers, local, sub);
    acc := Acceptance(sub, cs[0]);
  }

  /** Exactly the unambiguous subscriptions are accepted, each from an eligible offer. */
  lemma AcceptedByFields(subs: seq<SubscriptionEntry>, offers: seq<Offer>, local: set<string>)
    ensures forall acc :: acc in Acceptances(subs, offers, local) ==>
              && acc.subscription in subs && Eligible(acc.subscription, offers, local, acc.offer)
              && !Disagree(acc.subscription, offers, local)
    ensures forall sub, o :: sub in subs && Eligible(sub, offers, local, o) && !Disagree(sub, offers, local) ==>
              exists acc :: acc in Acceptances(subs, offers, local) && acc.subscription == sub
                            && acc.offer.folderID == o.folderID
  {
    hide Acceptances, Eligible, Disagree;
    forall acc | acc in Acceptances(subs, offers, local)
      ensures acc.subscription in subs && Eligible(acc.subscription, offers, local, acc.offer)
      ensures !Disagree(acc.subscription, offers, local)
    {
      AcceptedIsEligible(subs, offers, local, acc);
    }
    forall sub, o | sub in subs && Eligible(sub, offers, local, o) && !Disagree(sub, offers, local)
      ensures exists acc :: acc in Acceptances(subs, offers, local) && acc.subscription == sub
                            && acc.offer.folderID == o.folderID
    {
      var acc := EligibleIsAccepted(subs, offers, local, sub, o);
    }
  }
}
