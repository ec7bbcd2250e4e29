/** `useAnnouncement`: the announcement list of the notifications panel. Announcements from the
    last 30 days are kept, each is marked experienced when the viewer has seen it, and the list is
    ordered newest first; the unread total counts the ones not experienced. */
module Announcements {
  import opened Common

  const MaxAgeDays: int := 30

  /** One entry of the static announcement content. */
  datatype Content = Content(key: string, title: string, description: string, date: string,
                             link: Option<string>, ctaText: Option<string>)

  datatype UserExperience = UserExperience(experienceType: string, experienced: bool)

  /** `AnnouncementType`: the content plus `time` (time since its date) and `experienced`. */
  datatype Announcement = Announcement(key: string, title: string, description: string, date: string,
                                       time: Option<string>, experienced: bool,
                                       link: Option<string>, ctaText: Option<string>)

  /** The date helpers (`getDaysSince`, `getTimeSince`, and `new Date(d).getTime()`) are not part
      of this model; they are passed in as one record of functions. */
  datatype Clock = Clock(daysSince: string -> int, timeSince: string -> Option<string>, timeOf: string -> int)

  /** `userExperiences.some(e => e.type === key && e.experienced)` */
  function AnyExperienced(userExperiences: seq<UserExperience>, key: string): (r: bool)
  {
    if userExperiences == [] then false
    else (userExperiences[0].experienceType == key && userExperiences[0].experienced)
         || AnyExperienced(userExperiences[1..], key)
  }

  lemma {:induction false} AnyExperiencedIff(userExperiences: seq<UserExperience>, key: string)
    ensures AnyExperienced(userExperiences, key)
            <==> exists i :: 0 <= i < |userExperiences| && userExperiences[i] == UserExperience(key, true)
  {
    if userExperiences != [] {
      AnyExperiencedIff(userExperiences[1..], key);
      if AnyExperienced(userExperiences[1..], key) {
        var i :| 0 <= i < |userExperiences[1..]| && userExperiences[1..][i] == UserExperience(key, true);
        assert userExperiences[i + 1] == UserExperience(key, true);
      }
      if exists i :: 0 <= i < |userExperiences| && userExperiences[i] == UserExperience(key, true) {
        var i :| 0 <= i < |userExperiences| && userExperiences[i] == UserExperience(key, true);
        if i > 0 {
          assert userExperiences[1..][i - 1] == UserExperience(key, true);
        }
      }
    }
  }

  function Enrich(c: Content, userExperiences: seq<UserExperience>, clock: Clock): (r: Announcement)
    ensures r.key == c.key && r.title == c.title && r.description == c.description && r.date == c.date
    ensures r.link == c.link && r.ctaText == c.ctaText
    ensures r.time == clock.timeSince(c.date)
  {
    Announcement(c.key, c.title, c.description, c.date, clock.timeSince(c.date),
                 AnyExperienced(userExperiences, c.key), c.link, c.ctaText)
  }

  predicate IsRecent(c: Content, clock: Clock)
  {
    clock.daysSince(c.date) <= MaxAgeDays
  }

  /** The `filter` and `map` steps, in content order. */
  function Recent(content: seq<Content>, userExperiences: seq<UserExperience>, clock: Clock): (r: seq<Announcement>)
    ensures |r| <= |content|
  {
    if content == [] then []
    else
      var init := Recent(content[..|content| - 1], userExperiences, clock);
      var c := content[|content| - 1];
      if IsRecent(c, clock) then init + [Enrich(c, userExperiences, clock)] else init
  }

  /** The comparator: newest first when both dates are non-empty, otherwise "equal". */
  function Compare(a: Announcement, b: Announcement, clock: Clock): int
  {
    if a.date != "" && b.date != "" then clock.timeOf(b.date) - clock.timeOf(a.date) else 0
  }

  /** One step of a stable insertion sort: `x` goes after every element that does not compare
      greater than it. */
  function Insert(s: seq<Announcement>, x: Announcement, clock: Clock): (r: seq<Announcement>)
    ensures |r| == |s| + 1
  {
    if s == [] then [x]
    else if Compare(s[|s| - 1], x, clock) > 0 then Insert(s[..|s| - 1], x, clock) + [s[|s| - 1]]
    else s + [x]
  }

  /** `Array.prototype.sort` with the comparator, which is stable. */
  function Sort(s: seq<Announcement>, clock: Clock): (r: seq<Announcement>)
    ensures |r| == |s|
  {
    if s == [] then [] else Insert(Sort(s[..|s| - 1], clock), s[|s| - 1], clock)
  }

  /** `useAnnouncement(...).announcements` */
  function AnnouncementsOf(content: seq<Content>, userExperiences: Option<seq<UserExperience>>, clock: Clock): (r: seq<Announcement>)
    ensures |r| <= |content|
  {
    Sort(Recent(content, GetOr(userExperiences, []), clock), clock)
  }

  /** The `!announcement.experienced` test. */
  predicate Unread(a: Announcement)
  {
    !a.experienced
  }

  function UnreadCount(s: seq<Announcement>): (n: nat)
    ensures n <= |s|
  {
    if s == [] then 0 else UnreadCount(s[..|s| - 1]) + (if s[|s| - 1].experienced then 0 else 1)
  }

  /** The count is the length of the list filtered to its unread items. */
  lemma {:induction false} UnreadCountIsFilter(s: seq<Announcement>)
    ensures UnreadCount(s) == |Filter(s, Unread)|
  {
    if s != [] {
      UnreadCountIsFilter(s[..|s| - 1]);
    }
  }

  /** `totalUnreadAnnouncements`: `announcements.filter((a) => !a.experienced).length`. */
  function TotalUnreadAnnouncements(content: seq<Content>, userExperiences: Option<seq<UserExperience>>, clock: Clock): (n: nat)
    ensures n <= |AnnouncementsOf(content, userExperiences, clock)|
    ensures n == |Filter(AnnouncementsOf(content, userExperiences, clock), Unread)|
  {
    var announcements := AnnouncementsOf(content, userExperiences, clock);
    UnreadCountIsFilter(announcements);
    UnreadCount(announcements)
  }

  // ---------------------------------------------------------------------------------------
  // Properties
  // ---------------------------------------------------------------------------------------

  lemma {:induction false} InsertMultiset(s: seq<Announcement>, x: Announcement, clock: Clock)
    ensures multiset(Insert(s, x, clock)) == multiset(s) + multiset{x}
  {
    if s != [] && Compare(s[|s| - 1], x, clock) > 0 {
      var init := s[..|s| - 1];
      InsertMultiset(init, x, clock);
      assert s == init + [s[|s| - 1]];
    }
  }

  lemma {:induction false} SortMultiset(s: seq<Announcement>, clock: Clock)
    ensures multiset(Sort(s, clock)) == multiset(s)
  {
    if s != [] {
      var init := s[..|s| - 1];
      SortMultiset(init, clock);
      InsertMultiset(Sort(init, clock), s[|s| - 1], clock);
      assert s == init + [s[|s| - 1]];
    }
  }

  ghost predicate AllDated(s: seq<Announcement>)
  {
    forall i :: 0 <= i < |s| ==> s[i].date != ""
  }

  ghost predicate NewestFirst(s: seq<Announcement>, clock: Clock)
  {
    forall i, j :: 0 <= i < j < |s| ==> clock.timeOf(s[i].date) >= clock.timeOf(s[j].date)
  }

  lemma DatedMembers(s: seq<Announcement>, t: seq<Announcement>)
    requires AllDated(s) && multiset(t) <= multiset(s)
    ensures AllDated(t)
  {
    forall i | 0 <= i < |t|
      ensures t[i].date != ""
    {
      assert t[i] in multiset(t);
      assert t[i] in multiset(s);
    }
  }

  lemma {:induction false} InsertSorted(s: seq<Announcement>, x: Announcement, clock: Clock)
    requires AllDated(s) && x.date != "" && NewestFirst(s, clock)
    ensures NewestFirst(Insert(s, x, clock), clock)
  {
    if s != [] {
      var init := s[..|s| - 1];
      var last := s[|s| - 1];
      if Compare(last, x, clock) > 0 {
        InsertSorted(init, x, clock);
        var r := Insert(init, x, clock);
        InsertMultiset(init, x, clock);
        forall k | 0 <= k < |r|
          ensures clock.timeOf(r[k].date) >= clock.timeOf(last.date)
        {
          assert r[k] in multiset(r);
          if r[k] != x {
            assert r[k] in multiset(init);
            var m :| 0 <= m < |init| && init[m] == r[k];
            assert s[m] == init[m];
          }
        }
        var t := r + [last];
        forall i, j | 0 <= i < j < |t|
          ensures clock.timeOf(t[i].date) >= clock.timeOf(t[j].date)
        {
          if j < |r| {
            assert t[i] == r[i] && t[j] == r[j];
          }
        }
      } else {
        var t := s + [x];
        forall i, j | 0 <= i < j < |t|
          ensures clock.timeOf(t[i].date) >= clock.timeOf(t[j].date)
        {
          if j == |s| {
            assert clock.timeOf(s[i].date) >= clock.timeOf(last.date);
          }
        }
      }
    }
  }

  lemma {:induction false} SortSorted(s: seq<Announcement>, clock: Clock)
    requires AllDated(s)
    ensures NewestFirst(Sort(s, clock), clock)
  {
    if s != [] {
      var init := s[..|s| - 1];
      assert AllDated(init) by {
        forall i | 0 <= i < |init| ensures init[i].date != "" {
          assert init[i] == s[i];
        }
      }
      SortSorted(init, clock);
      SortMultiset(init, clock);
      DatedMembers(init, Sort(init, clock));
      InsertSorted(Sort(init, clock), s[|s| - 1], clock);
    }
  }

  /** The list holds exactly the recent announcements, each made from its own content entry. */
  lemma {:induction false} RecentMembers(content: seq<Content>, userExperiences: seq<UserExperience>, clock: Clock, a: Announcement)
    ensures a in Recent(content, userExperiences, clock)
            <==> exists i :: 0 <= i < |content| && IsRecent(content[i], clock) && a == Enrich(content[i], userExperiences, clock)
  {
    if content != [] {
      var init := content[..|content| - 1];
      RecentMembers(init, userExperiences, clock, a);
      if exists i :: 0 <= i < |content| && IsRecent(content[i], clock) && a == Enrich(content[i], userExperiences, clock) {
        var i :| 0 <= i < |content| && IsRecent(content[i], clock) && a == Enrich(content[i], userExperiences, clock);
        if i < |init| {
          assert init[i] == content[i];
        }
      }
      if exists i :: 0 <= i < |init| && IsRecent(init[i], clock) && a == Enrich(init[i], userExperiences, clock) {
        var i :| 0 <= i < |init| && IsRecent(init[i], clock) && a == Enrich(init[i], userExperiences, clock);
        assert content[i] == init[i];
      }
    }
  }

  lemma AnnouncementsMembers(content: seq<Content>, userExperiences: Option<seq<UserExperience>>, clock: Clock, a: Announcement)
    ensures a in AnnouncementsOf(content, userExperiences, clock)
            <==> exists i :: 0 <= i < |content| && IsRecent(content[i], clock)
                             && a == Enrich(content[i], GetOr(userExperiences, []), clock)
  {
    var r := Recent(content, GetOr(userExperiences, []), clock);
    SortMultiset(r, clock);
    assert a in Sort(r, clock) <==> a in multiset(Sort(r, clock));
    assert a in r <==> a in multiset(r);
    RecentMembers(content, GetOr(userExperiences, []), clock, a);
  }

  /** Every listed announcement is marked experienced iff the viewer has a matching experience
      with `experienced` set. */
  lemma ExperiencedIff(content: seq<Content>, userExperiences: Option<seq<UserExperience>>, clock: Clock, a: Announcement)
    requires a in AnnouncementsOf(content, userExperiences, clock)
    ensures a.experienced <==> exists i :: 0 <= i < |GetOr(userExperiences, [])| && GetOr(userExperiences, [])[i] == UserExperience(a.key, true)
  {
    AnnouncementsMembers(content, userExperiences, clock, a);
    AnyExperiencedIff(GetOr(userExperiences, []), a.key);
  }

  /** When every date is non-empty the list is newest first, and it is always a reordering of
      the recent announcements. */
  lemma AnnouncementsOrdered(content: seq<Content>, userExperiences: Option<seq<UserExperience>>, clock: Clock)
    ensures multiset(AnnouncementsOf(content, userExperiences, clock)) == multiset(Recent(content, GetOr(userExperiences, []), clock))
    ensures (forall i :: 0 <= i < |content| ==> content[i].date != "")
            ==> NewestFirst(AnnouncementsOf(content, userExperiences, clock), clock)
  {
    var r := Recent(content, GetOr(userExperiences, []), clock);
    SortMultiset(r, clock);
    if forall i :: 0 <= i < |content| ==> content[i].date != "" {
      forall k | 0 <= k < |r| ensures r[k].date != "" {
        RecentMembers(content, GetOr(userExperiences, []), clock, r[k]);
      }
      SortSorted(r, clock);
    }
  }

  lemma {:induction false} UnreadCountAll(s: seq<Announcement>)
    requires forall i :: 0 <= i < |s| ==> !s[i].experienced
    ensures UnreadCount(s) == |s|
  {
    if s != [] {
      UnreadCountAll(s[..|s| - 1]);
    }
  }

  /** Without any user experiences every listed announcement is unread. */
  lemma NoExperiencesAllUnread(content: seq<Content>, clock: Clock)
    ensures TotalUnreadAnnouncements(content, None, clock) == |AnnouncementsOf(content, None, clock)|
  {
    var s := AnnouncementsOf(content, None, clock);
    forall i | 0 <= i < |s| ensures !s[i].experienced {
      AnnouncementsMembers(content, None, clock, s[i]);
    }
    UnreadCountAll(s);
  }
}
