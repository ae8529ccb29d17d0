/**
  The text a project card on the Work page derives from its project and its
  position in the list: the call-to-action label and icon, the status tag in
  the card's corner, the `PRJ_nn` card number and the numbers of the task list.
 */
module ProjectCards {
  import Decimal

  /** The three kinds of project the page knows. */
  datatype ProjectType = Website | Mock | CaseStudy

  datatype Option<T> = None | Some(value: T)

  /** The string a project kind is written as in the page's data. */
  function Tag(t: ProjectType): string {
    match t
    case Website => "website"
    case Mock => "mock"
    case CaseStudy => "case-study"
  }

  /** The kind a string names, if it names one. */
  function ParseTag(s: string): (r: Option<ProjectType>)
    ensures r.Some? ==> Tag(r.value) == s
  {
    if s == "website" then Some(Website)
    else if s == "mock" then Some(Mock)
    else if s == "case-study" then Some(CaseStudy)
    else None
  }

  /** Every kind's tag is recognised as that kind, so tags never collide. */
  lemma ParseTagRoundTrip(t: ProjectType)
    ensures ParseTag(Tag(t)) == Some(t)
  {
  }

  const DefaultCtaText: string := "View Project"
  const DefaultCtaIcon: string := "arrow_forward"

  /** The call-to-action label: a switch on the kind string whose default is a generic label. */
  function CtaText(tag: string): (text: string)
    ensures text == DefaultCtaText <==> ParseTag(tag).None?
  {
    if tag == "website" then "View Website"
    else if tag == "mock" then "View Mock Brand"
    else if tag == "case-study" then "Read Case Study"
    else DefaultCtaText
  }

  /** The call-to-action icon name: the same switch, with its own default. */
  function CtaIcon(tag: string): (icon: string)
    ensures icon == DefaultCtaIcon <==> ParseTag(tag).None?
  {
    if tag == "website" then "public"
    else if tag == "mock" then "layers"
    else if tag == "case-study" then "description"
    else DefaultCtaIcon
  }

  /** The status tag in the card's corner: a nested ternary that tests for a website, then a mock; anything else is a case file. */
  function StatusTag(tag: string): (status: string)
    ensures status == "CASE_FILE" <==> ParseTag(tag) != Some(Website) && ParseTag(tag) != Some(Mock)
  {
    if tag == "website" then "LIVE_DEPLOY"
    else if tag == "mock" then "MOCK_ENV"
    else "CASE_FILE"
  }

  /** No declared kind reaches a default branch, and each of the three
      mappings tells the kinds apart: from the label, the icon or the
      status alone the kind is determined. */
  lemma CardTextsDistinguishKinds(a: ProjectType, b: ProjectType)
    ensures CtaText(Tag(a)) != DefaultCtaText && CtaIcon(Tag(a)) != DefaultCtaIcon
    ensures CtaText(Tag(a)) == CtaText(Tag(b)) ==> a == b
    ensures CtaIcon(Tag(a)) == CtaIcon(Tag(b)) ==> a == b
    ensures StatusTag(Tag(a)) == StatusTag(Tag(b)) ==> a == b
  {
  }

  /** The card number: "PRJ_", then "0" when the list position is below 9,
      then the one-based position. */
  function CardLabel(index: nat): (s: string)
    ensures |s| >= 5 && s[..4] == "PRJ_"
  {
    "PRJ_" + (if index < 9 then "0" else "") + Decimal.Show(index + 1)
  }

  /** The numeric part of a card number is all digits, reads back as the
      one-based position, starts with '0' exactly below position 9, and is
      exactly two digits wide exactly for positions 0 to 98. */
  lemma CardLabelNumber(index: nat)
    ensures var num := CardLabel(index)[4..];
      && Decimal.AllDigits(num)
      && Decimal.Value(num) == index + 1
      && (num[0] == '0' <==> index < 9)
      && (|num| == 2 <==> index <= 98)
  {
    var num := CardLabel(index)[4..];
    var shown := Decimal.Show(index + 1);
    Decimal.ValueOfShow(index + 1);
    if index < 9 {
      assert num == "0" + shown;
      Decimal.LeadingZero(shown);
    } else {
      assert num == shown;
    }
  }

  /** Different list positions get different card numbers. */
  lemma CardLabelInjective(a: nat, b: nat)
    ensures CardLabel(a) == CardLabel(b) ==> a == b
  {
    CardLabelNumber(a);
    CardLabelNumber(b);
  }

  /** The number of the task at position `i` of a card's task list: a '0' always, then `i + 1`. */
  function TaskNumber(i: nat): (number: string)
    ensures |number| >= 2 && number[0] == '0'
    ensures Decimal.AllDigits(number)
  {
    "0" + Decimal.Show(i + 1)
  }

  /** Task numbers are one-based and are two characters wide exactly for the
      first nine tasks; from the tenth on they are three or more ("010"). */
  lemma TaskNumberValue(i: nat)
    ensures Decimal.Value(TaskNumber(i)) == i + 1
    ensures |TaskNumber(i)| == 2 <==> i < 9
  {
    Decimal.LeadingZero(Decimal.Show(i + 1));
    Decimal.ValueOfShow(i + 1);
  }

  datatype Project = Project(
    id: string,
    client: string,
    category: string,
    outcome: string,
    tasks: seq<string>,
    tags: seq<string>,
    kind: ProjectType)

  /** The page's project list, in display order. */
  const Projects: seq<Project> := [
    Project("samkit", "Samkit", "Oracle-ERP SEO & CRO",
      "High-intent traffic & lead gen pipelines",
      ["On-page SEO + Speed Optimization", "Intent capture for niche ERP buyers", "24/7 form + content support"],
      ["SEO", "B2B", "ERP"], Website),
    Project("rozella", "Rozella", "Hardware Campaign",
      "Brand positioning & catalog intent",
      ["Persona led storytelling scripts", "Premium hardware B2B positioning", "Engagement \U{2192} Visit \U{2192} Inquiry flow"],
      ["Brand-Strategy", "B2B", "Copywriting"], Website),
    Project("jbc", "JBC Naturals", "Sustainable Coir Products",
      "Eco-export market penetration",
      ["Green-tech narrative building", "Export-focused SEO architecture", "Conversion funnel for wholesalers"],
      ["Sustainability", "Export", "SEO"], Website),
    Project("supreme", "Supreme Surgico", "Medical Equipment",
      "Global B2B catalog indexing",
      ["Medical catalog taxonomy", "Trust-signal optimization", "Lead qualification flows"],
      ["Healthcare", "B2B", "Catalog"], Website),
    Project("basil", "Basil Real Estate", "Real Estate Growth",
      "Local SEO & Lead capture",
      ["Hyperlocal search dominance", "High-converting landing pages", "Automated lead nurturing"],
      ["Real-Estate", "Local-SEO", "Lead-Gen"], Website),
    Project("olia", "Olia Skincare", "Mock Brand",
      "Portfolio-first launch framing",
      ["Identity + Packaging + Email flows", "Clear funnel storytelling design", "Creative assets for youth aura"],
      ["Branding", "FMCG", "Design"], Mock),
    Project("fizzify", "Fizzify", "Mock Brand",
      "Mass engagement narrative",
      ["Brand + Ad storyboard + Copy", "FMCG youth audience appeal", "Campaign-ready asset funnel"],
      ["Youth-Marketing", "Ad-Copy", "Design"], Mock)
  ]

  /** The ids serve as list keys, so they must be pairwise distinct. */
  lemma ProjectIdsDistinct()
    ensures forall a, b :: 0 <= a < b < |Projects| ==> Projects[a].id != Projects[b].id
  {
  }

  /** For the page's own list every card number is "PRJ_" and two digits, and
      every task number is two characters wide. */
  lemma ProjectListNumbersTwoWide()
    ensures forall p :: 0 <= p < |Projects| ==> |CardLabel(p)| == 6
    ensures forall p :: 0 <= p < |Projects| ==>
      CardLabel(p)[..4] == "PRJ_" && |CardLabel(p)[4..]| == 2 && Decimal.AllDigits(CardLabel(p)[4..])
    ensures forall p, i :: 0 <= p < |Projects| && 0 <= i < |Projects[p].tasks| ==> |TaskNumber(i)| == 2
  {
    forall p | 0 <= p < |Projects|
      ensures Decimal.AllDigits(CardLabel(p)[4..])
    {
      CardLabelNumber(p);
    }
  }

  /** Everything a card shows that is derived rather than copied from its project. */
  datatype CardFace = CardFace(
    cardNumber: string,
    status: string,
    ctaText: string,
    ctaIcon: string,
    taskNumbers: seq<string>)

  /** The derived text of the card at list position `index`. */
  function Face(p: Project, index: nat): (f: CardFace)
    ensures f.ctaText != DefaultCtaText && f.ctaIcon != DefaultCtaIcon
    ensures |f.taskNumbers| == |p.tasks|
    ensures forall i :: 0 <= i < |f.taskNumbers| ==> f.taskNumbers[i] == TaskNumber(i)
  {
    ParseTagRoundTrip(p.kind);
    CardFace(
      CardLabel(index),
      StatusTag(Tag(p.kind)),
      CtaText(Tag(p.kind)),
      CtaIcon(Tag(p.kind)),
      seq(|p.tasks|, i requires 0 <= i < |p.tasks| => TaskNumber(i)))
  }
}
