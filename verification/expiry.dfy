/**
 Expiry evaluation of the grocery list (src/components/GroceryList.tsx): the
 signed whole-day count between "now" and an item's expiry instant, the
 urgency tier it falls in, the two colour cascades (the status colour, which
 the card computes but never renders, and the card strip) and the
 human-readable expiry label.

 The source reads the wall clock on every call; here `now` is a parameter.
 */
module Expiry {

  import opened Types
  import opened Text

  /** Milliseconds in a day, written as the source writes it. */
  const MillisPerDay: int := 1000 * 60 * 60 * 24

  function Abs(x: int): (r: nat)
    ensures r == x || r == -x
  {
    if x < 0 then -x else x
  }

  /**
   `Math.ceil(a / b)` for a non-negative numerator: the least `q` with
   `a <= q * b`.
   */
  function CeilDiv(a: nat, b: nat): (q: nat)
    requires b > 0
    ensures a <= q * b
    ensures (q - 1) * b < a
  {
    if a % b == 0 then a / b else a / b + 1
  }

  // ---------------------------------------------------------------- days left

  /**
   `calculateDaysLeft`: the whole days between `now` and `expiry`, rounded up,
   positive when the expiry lies strictly in the future and otherwise negated.
   When the two instants coincide the source returns `-0`, which every later
   comparison treats as `0`.
   */
  function DaysLeft(now: Instant, expiry: Instant): (days: int)
    ensures days > 0 <==> expiry > now
    ensures days == 0 <==> expiry == now
    ensures days < 0 <==> expiry < now
    ensures Abs(expiry - now) <= Abs(days) * MillisPerDay
    ensures (Abs(days) - 1) * MillisPerDay < Abs(expiry - now)
  {
    var diffDays: int := CeilDiv(Abs(expiry - now), MillisPerDay);
    if expiry > now then diffDays else -diffDays
  }

  /**
   The sign rule and the ceiling bounds pin the count down: any integer that
   meets them is the one `DaysLeft` returns.
   */
  lemma DaysLeftUnique(now: Instant, expiry: Instant, days: int)
    requires days > 0 <==> expiry > now
    requires days < 0 <==> expiry < now
    requires Abs(expiry - now) <= Abs(days) * MillisPerDay
    requires (Abs(days) - 1) * MillisPerDay < Abs(expiry - now)
    ensures days == DaysLeft(now, expiry)
  {
    var d := DaysLeft(now, expiry);
    if expiry > now {
      assert (days - 1) * MillisPerDay < d * MillisPerDay;
      assert (d - 1) * MillisPerDay < days * MillisPerDay;
    } else if expiry < now {
      assert (-days - 1) * MillisPerDay < -d * MillisPerDay;
      assert (-d - 1) * MillisPerDay < -days * MillisPerDay;
    }
  }

  /** A later expiry never has fewer days left. */
  lemma DaysLeftMonotone(now: Instant, earlier: Instant, later: Instant)
    requires earlier <= later
    ensures DaysLeft(now, earlier) <= DaysLeft(now, later)
  {
    var d1 := DaysLeft(now, earlier);
    var d2 := DaysLeft(now, later);
    if earlier > now {
      assert (d1 - 1) * MillisPerDay < d2 * MillisPerDay;
    } else if later < now {
      assert (-d2 - 1) * MillisPerDay < -d1 * MillisPerDay;
    }
  }

  /** A later "now" never leaves more days. */
  lemma DaysLeftAntitone(earlier: Instant, later: Instant, expiry: Instant)
    requires earlier <= later
    ensures DaysLeft(later, expiry) <= DaysLeft(earlier, expiry)
  {
    var d1 := DaysLeft(earlier, expiry);
    var d2 := DaysLeft(later, expiry);
    if expiry > later {
      assert (d2 - 1) * MillisPerDay < d1 * MillisPerDay;
    } else if expiry < earlier {
      assert (-d1 - 1) * MillisPerDay < -d2 * MillisPerDay;
    }
  }

  // ---------------------------------------------------------------- tiers

  /** The urgency tiers the list distinguishes. */
  datatype Tier = Expired | ExpiresToday | Critical | Warning | Fresh

  /**
   The tier of a day count. The source tests `< 0`, `== 0`, `<= 2`, `<= 5` in
   that order; the contract states each tier as its own range, so the tiers
   partition the integers.
   */
  function Classify(days: int): (t: Tier)
    ensures t == Expired <==> days < 0
    ensures t == ExpiresToday <==> days == 0
    ensures t == Critical <==> 0 < days <= 2
    ensures t == Warning <==> 2 < days <= 5
    ensures t == Fresh <==> 5 < days
  {
    if days < 0 then Expired
    else if days == 0 then ExpiresToday
    else if days <= 2 then Critical
    else if days <= 5 then Warning
    else Fresh
  }

  /**
   `getExpiryStatusColor`: the text colour class of a day count. The list
   computes it for every card but applies it to no element.
   */
  function StatusColor(days: int): (color: string)
    ensures color == "text-red-500" <==> Classify(days) == Expired
    ensures color == "text-orange-500" <==> Classify(days) in {ExpiresToday, Critical}
    ensures color == "text-yellow-500" <==> Classify(days) == Warning
    ensures color == "text-zw-green-500" <==> Classify(days) == Fresh
  {
    if days < 0 then "text-red-500"
    else if days <= 2 then "text-orange-500"
    else if days <= 5 then "text-yellow-500"
    else "text-zw-green-500"
  }

  /** The card's colour strip, a second copy of the same threshold cascade. */
  function StripColor(days: int): (color: string)
    ensures color == "bg-red-500" <==> Classify(days) == Expired
    ensures color == "bg-orange-500" <==> Classify(days) in {ExpiresToday, Critical}
    ensures color == "bg-yellow-500" <==> Classify(days) == Warning
    ensures color == "bg-zw-green-500" <==> Classify(days) == Fresh
  {
    if days < 0 then "bg-red-500"
    else if days <= 2 then "bg-orange-500"
    else if days <= 5 then "bg-yellow-500"
    else "bg-zw-green-500"
  }

  /**
   The strip and the computed status colour always agree: for every day count
   the strip shows the status colour with the `bg-` prefix in place of `text-`.
   */
  lemma StripAgreesWithStatus(days: int)
    ensures StripColor(days) == "bg-" + StatusColor(days)[|"text-"|..]
  {
  }

  // ---------------------------------------------------------------- labels

  datatype Icon = AlertTriangle | Clock | Check

  /** What `getExpiryLabel` renders: a colour class, an icon and a sentence. */
  datatype ExpiryLabel = ExpiryLabel(color: string, icon: Icon, text: string)

  /**
   `getExpiryLabel`. Expired counts speak of their magnitude, a zero count says
   "today", one or two days are "in", and anything larger is "left"; every day
   count carries the plural suffix unless it is exactly one. The label takes
   the status colour in every tier but Warning, where it shows the Fresh colour
   and icon instead. The sentences are spelled out by `LabelTextExpired`,
   `LabelTextSoon` and `LabelTextLeft`, and read back by `ReadLabel`.
   */
  function Label(days: int): (l: ExpiryLabel)
    ensures l.text == "Expires today" <==> days == 0
    ensures l.icon == Clock <==> days == 0
    ensures l.icon == Check <==> Classify(days) in {Warning, Fresh}
    ensures l.color == StatusColor(days) <==> Classify(days) != Warning
    ensures Classify(days) == Warning ==> l.color == "text-zw-green-500"
  {
    if days < 0 then
      var n := Abs(days);
      var text := "Expired " + NatToString(n) + " day" + PluralSuffix(n) + " ago";
      assert text[6] == 'd';
      ExpiryLabel("text-red-500", AlertTriangle, text)
    else if days == 0 then
      ExpiryLabel("text-orange-500", Clock, "Expires today")
    else if days <= 2 then
      var text := "Expires in " + NatToString(days) + " day" + PluralSuffix(days);
      assert text[8] == 'i';
      ExpiryLabel("text-orange-500", AlertTriangle, text)
    else
      var text := NatToString(days) + " day" + PluralSuffix(days) + " left";
      assert IsDigit(text[0]);
      ExpiryLabel("text-zw-green-500", Check, text)
  }

  /**
   Reads a day count back from a label sentence: the inverse of `Label`'s text
   on every count.
   */
  function ReadLabel(text: string): Option<int> {
    if text == "Expires today" then Some(0)
    else if |text| >= 8 && text[..8] == "Expired " then
      match ReadNat(text[8..])
      case Some(n) => Some(0 - n)
      case None => None
    else if |text| >= 11 && text[..11] == "Expires in " then
      match ReadNat(text[11..])
      case Some(n) => Some(n)
      case None => None
    else
      match ReadNat(text)
      case Some(n) => Some(n)
      case None => None
  }

  /** A sentence made of `prefix` and then `tail` splits back into the two. */
  lemma SplitAfter(prefix: string, tail: string)
    ensures (prefix + tail)[..|prefix|] == prefix
    ensures (prefix + tail)[|prefix|..] == tail
  {
  }

  lemma ReadExpiredLabel(n: nat, rest: string)
    requires |rest| > 0 && rest[0] == ' '
    ensures ReadLabel("Expired " + (NatToString(n) + rest)) == Some(0 - n)
  {
    var tail := NatToString(n) + rest;
    var text := "Expired " + tail;
    SplitAfter("Expired ", tail);
    assert text != "Expires today" by { assert text[6] != "Expires today"[6]; }
    ReadNatOfRendered(n, rest);
  }

  lemma ReadSoonLabel(n: nat, rest: string)
    requires |rest| > 0 && rest[0] == ' '
    ensures ReadLabel("Expires in " + (NatToString(n) + rest)) == Some(n)
  {
    var tail := NatToString(n) + rest;
    var text := "Expires in " + tail;
    SplitAfter("Expires in ", tail);
    assert text != "Expires today" by { assert text[8] != "Expires today"[8]; }
    assert text[..8] != "Expired " by { assert text[6] != "Expired "[6]; }
    ReadNatOfRendered(n, rest);
  }

  lemma ReadLeftLabel(n: nat, rest: string)
    requires |rest| > 0 && rest[0] == ' '
    ensures ReadLabel(NatToString(n) + rest) == Some(n)
  {
    var text := NatToString(n) + rest;
    assert IsDigit(text[0]);
    assert text != "Expires today" by { assert text[0] != "Expires today"[0]; }
    assert |text| >= 8 ==> text[..8] != "Expired " by { assert !IsDigit("Expired "[0]); }
    assert |text| >= 11 ==> text[..11] != "Expires in " by { assert !IsDigit("Expires in "[0]); }
    ReadNatOfRendered(n, rest);
  }

  lemma ConcatAssoc(a: string, b: string, c: string, d: string)
    ensures a + b + c + d == a + (b + (c + d))
    ensures a + b + c == a + (b + c)
  {
  }

  lemma LabelTextExpired(days: int)
    requires days < 0
    ensures Label(days).text == "Expired " + (NatToString(-days) + (" day" + PluralSuffix(-days) + " ago"))
  {
    var n := -days;
    ConcatAssoc("Expired ", NatToString(n), " day", PluralSuffix(n) + " ago");
  }

  lemma LabelTextSoon(days: int)
    requires 0 < days <= 2
    ensures Label(days).text == "Expires in " + (NatToString(days) + (" day" + PluralSuffix(days)))
  {
    ConcatAssoc("Expires in ", NatToString(days), " day", PluralSuffix(days));
  }

  lemma LabelTextLeft(days: int)
    requires 2 < days
    ensures Label(days).text == NatToString(days) + (" day" + PluralSuffix(days) + " left")
  {
    ConcatAssoc(NatToString(days), " day", PluralSuffix(days), " left");
  }

  lemma ExpiredLabelRoundTrip(days: int)
    requires days < 0
    ensures ReadLabel(Label(days).text) == Some(days)
  {
    var n: nat := -days;
    var rest := " day" + PluralSuffix(n) + " ago";
    var text := "Expired " + (NatToString(n) + rest);
    LabelTextExpired(days);
    assert Label(days).text == text;
    ReadExpiredLabel(n, rest);
    assert ReadLabel(text) == Some(days);
  }

  lemma SoonLabelRoundTrip(days: int)
    requires 0 < days <= 2
    ensures ReadLabel(Label(days).text) == Some(days)
  {
    LabelTextSoon(days);
    ReadSoonLabel(days, " day" + PluralSuffix(days));
  }

  lemma LeftLabelRoundTrip(days: int)
    requires 2 < days
    ensures ReadLabel(Label(days).text) == Some(days)
  {
    LabelTextLeft(days);
    ReadLeftLabel(days, " day" + PluralSuffix(days) + " left");
  }

  /** Every label sentence reads back as the day count it was made from. */
  lemma LabelRoundTrip(days: int)
    ensures ReadLabel(Label(days).text) == Some(days)
  {
    if days < 0 {
      ExpiredLabelRoundTrip(days);
    } else if days == 0 {
      assert Label(0).text == "Expires today";
    } else if days <= 2 {
      SoonLabelRoundTrip(days);
    } else {
      LeftLabelRoundTrip(days);
    }
  }

  /** No two day counts share a label sentence. */
  lemma LabelInjective(d1: int, d2: int)
    requires Label(d1).text == Label(d2).text
    ensures d1 == d2
  {
    LabelRoundTrip(d1);
    LabelRoundTrip(d2);
  }

  /**
   The label does not separate the Warning tier from the Fresh tier: three to
   five days look like any larger count. On screen only the strip singles the
   Warning tier out; the computed status colour does too, but is not rendered.
   */
  lemma WarningLabelLooksFresh(warning: int, longer: int)
    requires Classify(warning) == Warning && Classify(longer) == Fresh
    ensures Label(warning).color == Label(longer).color
    ensures Label(warning).icon == Label(longer).icon
    ensures StatusColor(warning) != StatusColor(longer)
  {
  }

  // ---------------------------------------------------------------- scenarios

  /** Midnight UTC at the start of 10 January 2024, in milliseconds. */
  const Jan10: Instant := 1_704_844_800_000

  /**
   Day boundaries seen from midnight on 10 January 2024: the same instant is
   "today", two days before is expired, two days ahead is critical, five days
   ahead is the last warning day and ten days ahead is fresh.
   */
  lemma BoundaryScenarios()
    ensures DaysLeft(Jan10, Jan10) == 0 && Classify(0) == ExpiresToday
    ensures DaysLeft(Jan10, Jan10 - 2 * MillisPerDay) == -2 && Classify(-2) == Expired
    ensures DaysLeft(Jan10, Jan10 + 2 * MillisPerDay) == 2 && Classify(2) == Critical
    ensures DaysLeft(Jan10, Jan10 + 5 * MillisPerDay) == 5 && Classify(5) == Warning
    ensures DaysLeft(Jan10, Jan10 + 10 * MillisPerDay) == 10 && Classify(10) == Fresh
    ensures DaysLeft(Jan10, Jan10 + 1) == 1 && DaysLeft(Jan10, Jan10 - 1) == -1
  {
  }
}
