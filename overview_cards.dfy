/** The overview cards at the top of each dashboard: the trend row under a card's figure, the
    trend arrow and colour, and the card set chosen by dashboard type. */
module OverviewCards {
  import opened Wrappers
  import DashboardLayout

  datatype Trend = Up | Down | Neutral

  datatype Arrow = ArrowUp | ArrowDown | ArrowRight

  /** The text colours a trend is shown in. */
  datatype TrendColor = Green | Red | Grey

  datatype TrendIcon = TrendIcon(arrow: Arrow, color: TrendColor)

  datatype CardIcon = PackageIcon | TruckIcon | UsersIcon | AlertCircleIcon

  datatype Card = Card(
    title: string,
    value: string,
    description: string,
    icon: CardIcon,
    trend: Option<Trend>,
    trendValue: Option<string>,
    delay: int)

  /** The trend's text colour; a card without a trend gets the neutral grey. */
  function GetTrendColor(trend: Option<Trend>): (r: TrendColor)
    ensures r == Green <==> trend == Some(Up)
    ensures r == Red <==> trend == Some(Down)
  {
    match trend
    case Some(Up) => Green
    case Some(Down) => Red
    case _ => Grey
  }

  /** The trend's arrow, with its own colour class. */
  function GetTrendIcon(trend: Option<Trend>): (r: TrendIcon)
    ensures r.color == GetTrendColor(trend)
  {
    match trend
    case Some(Up) => TrendIcon(ArrowUp, Green)
    case Some(Down) => TrendIcon(ArrowDown, Red)
    case _ => TrendIcon(ArrowRight, Grey)
  }

  /** The icon and the text around it are always the same colour, and the arrow points the way
      the trend goes: up and green, down and red, sideways and grey otherwise. */
  lemma TrendIconAgreesWithColor(trend: Option<Trend>)
    ensures GetTrendIcon(trend).color == GetTrendColor(trend)
    ensures GetTrendIcon(trend).arrow == ArrowUp <==> GetTrendColor(trend) == Green
    ensures GetTrendIcon(trend).arrow == ArrowDown <==> GetTrendColor(trend) == Red
    ensures GetTrendIcon(trend).arrow == ArrowRight <==> trend.None? || trend == Some(Neutral)
  {
  }

  /** The trend row is rendered when the card has a trend and a non-empty trend text. */
  function ShowsTrendRow(card: Card): (r: bool)
    ensures r ==> card.trend.Some? && card.trendValue.Some?
    ensures card.trendValue == Some("") ==> !r
  {
    card.trend.Some? && card.trendValue.Some? && card.trendValue.value != ""
  }

  /** What the trend row shows: the arrow, the colour of the text and the text. */
  datatype TrendRow = TrendRow(icon: TrendIcon, color: TrendColor, text: string)

  function RenderTrendRow(card: Card): (r: Option<TrendRow>)
    ensures r.Some? <==> ShowsTrendRow(card)
    ensures r.Some? ==> r.value.text == card.trendValue.value && r.value.text != ""
    ensures r.Some? ==> r.value.icon.color == r.value.color
  {
    if ShowsTrendRow(card) then
      TrendIconAgreesWithColor(card.trend);
      Some(TrendRow(GetTrendIcon(card.trend), GetTrendColor(card.trend), card.trendValue.value))
    else None
  }

  // ---------------------------------------------------------------- card sets

  const AdminCards: seq<Card> := [
    Card("Total Merchandise", "1,247", "Items in warehouse", PackageIcon, Some(Up), Some("12%"), 0),
    Card("Active Drivers", "42", "Currently on duty", TruckIcon, Some(Neutral), Some("0%"), 1),
    Card("Total Clients", "587", "Registered accounts", UsersIcon, Some(Up), Some("8%"), 2),
    Card("Pending Tasks", "23", "Require attention", AlertCircleIcon, Some(Down), Some("15%"), 3)
  ]

  const ModeratorCards: seq<Card> := [
    Card("Pending Orders", "18", "Needs validation", PackageIcon, Some(Up), Some("5%"), 0),
    Card("Available Drivers", "27", "Ready for assignment", TruckIcon, Some(Neutral), Some("2%"), 1),
    Card("Inspections Required", "12", "Pending controller assignment", AlertCircleIcon, Some(Down), Some("10%"), 2),
    Card("Validated Today", "47", "Orders processed", PackageIcon, Some(Up), Some("18%"), 3)
  ]

  const DriverCards: seq<Card> := [
    Card("Assigned Tasks", "5", "Current workload", PackageIcon, Some(Neutral), Some("0%"), 0),
    Card("Completed Today", "12", "Tasks finished", TruckIcon, Some(Up), Some("25%"), 1),
    Card("Average Rating", "4.8", "Out of 5.0", UsersIcon, Some(Up), Some("0.2"), 2),
    Card("Efficiency Score", "92%", "Performance metric", AlertCircleIcon, Some(Up), Some("3%"), 3)
  ]

  const ClientCards: seq<Card> := [
    Card("Active Products", "28", "Currently in storage", PackageIcon, Some(Up), Some("3"), 0),
    Card("Pending Orders", "3", "Awaiting processing", TruckIcon, Some(Neutral), Some("0"), 1),
    Card("In Transit", "7", "Being delivered", AlertCircleIcon, Some(Up), Some("2"), 2),
    Card("Storage Usage", "72%", "Of allocated space", PackageIcon, Some(Up), Some("5%"), 3)
  ]

  function GetCards(dashboardType: string): (r: seq<Card>)
    ensures |r| == 4
    ensures !DashboardLayout.KnownType(dashboardType) ==> r == AdminCards
  {
    if dashboardType == "admin" then AdminCards
    else if dashboardType == "moderator" then ModeratorCards
    else if dashboardType == "driver" then DriverCards
    else if dashboardType == "client" then ClientCards
    else AdminCards
  }

  /** The card set and the sidebar list are chosen by the same case split: each card set goes
      with exactly one navigation list, so every dashboard type gets its own cards and an
      unknown type gets the admin ones. */
  lemma CardsAgreeWithNavigation(dashboardType: string)
    ensures GetCards(dashboardType) == AdminCards <==>
      DashboardLayout.GetNavigation(dashboardType) == DashboardLayout.AdminNavigation
    ensures GetCards(dashboardType) == ModeratorCards <==>
      DashboardLayout.GetNavigation(dashboardType) == DashboardLayout.ModeratorNavigation
    ensures GetCards(dashboardType) == DriverCards <==>
      DashboardLayout.GetNavigation(dashboardType) == DashboardLayout.DriverNavigation
    ensures GetCards(dashboardType) == ClientCards <==>
      DashboardLayout.GetNavigation(dashboardType) == DashboardLayout.ClientNavigation
  {
    assert AdminCards[0].title != ModeratorCards[0].title;
    assert AdminCards[0].title != DriverCards[0].title;
    assert AdminCards[0].title != ClientCards[0].title;
    assert ModeratorCards[0].title != DriverCards[0].title;
    assert ModeratorCards[0].title != ClientCards[0].title;
    assert DriverCards[0].title != ClientCards[0].title;
    DashboardLayout.NavigationsDistinct();
  }

  /** A card set as the dashboards lay it out: four cards, each showing its trend row, that
      appear one after another in order. */
  predicate WellFormedSet(cards: seq<Card>) {
    && |cards| == 4
    && (forall i :: 0 <= i < |cards| ==> ShowsTrendRow(cards[i]))
    && (forall i :: 0 <= i < |cards| ==> cards[i].delay == i)
  }

  lemma AdminCardsWellFormed() ensures WellFormedSet(AdminCards) {}
  lemma ModeratorCardsWellFormed() ensures WellFormedSet(ModeratorCards) {}
  lemma DriverCardsWellFormed() ensures WellFormedSet(DriverCards) {}
  lemma ClientCardsWellFormed() ensures WellFormedSet(ClientCards) {}

  /** Every dashboard type gets a well-formed set, and an unknown type gets the admin set. */
  lemma GetCardsWellFormed(dashboardType: string)
    ensures WellFormedSet(GetCards(dashboardType))
    ensures forall i :: 0 <= i < |GetCards(dashboardType)| ==> RenderTrendRow(GetCards(dashboardType)[i]).Some?
    ensures !DashboardLayout.KnownType(dashboardType) ==> GetCards(dashboardType) == AdminCards
  {
    AdminCardsWellFormed();
    ModeratorCardsWellFormed();
    DriverCardsWellFormed();
    ClientCardsWellFormed();
  }
}
