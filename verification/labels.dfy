/**
 * The label settings both barcode pages keep (template, paper size,
 * whether the price and the name are printed, the first label position)
 * and their `handleSettingChange`. `parseInt` of a number input is passed
 * in as an `Option<int>`, whose `None` stands for NaN.
 */
module Labels {
  import opened Common

  datatype LabelSettings = LabelSettings(
    template: string,
    paperSize: string,
    showPrice: bool,
    showName: bool,
    startPosition: Option<int>)

  /** The settings both pages open with. */
  const InitialSettings := LabelSettings("1", "A4", true, true, Some(1))

  /** One `handleSettingChange(name, value)` call, by setting name. */
  datatype SettingChange =
    | SetTemplate(template: string)
    | SetPaperSize(paperSize: string)
    | SetShowPrice(showPrice: bool)
    | SetShowName(showName: bool)
    | SetStartPosition(startPosition: Option<int>)

  /** `setPrintSettings(prev => ({ ...prev, [name]: value }))`: the named
      setting takes the value and the others keep theirs. */
  function HandleSettingChange(s: LabelSettings, c: SettingChange): (r: LabelSettings)
    ensures r.template == (if c.SetTemplate? then c.template else s.template)
    ensures r.paperSize == (if c.SetPaperSize? then c.paperSize else s.paperSize)
    ensures r.showPrice == (if c.SetShowPrice? then c.showPrice else s.showPrice)
    ensures r.showName == (if c.SetShowName? then c.showName else s.showName)
    ensures r.startPosition == (if c.SetStartPosition? then c.startPosition else s.startPosition)
  {
    match c
    case SetTemplate(t) => s.(template := t)
    case SetPaperSize(p) => s.(paperSize := p)
    case SetShowPrice(b) => s.(showPrice := b)
    case SetShowName(b) => s.(showName := b)
    case SetStartPosition(n) => s.(startPosition := n)
  }

  /** Whether two changes name the same setting. */
  predicate SameSetting(c1: SettingChange, c2: SettingChange) {
    || (c1.SetTemplate? && c2.SetTemplate?)
    || (c1.SetPaperSize? && c2.SetPaperSize?)
    || (c1.SetShowPrice? && c2.SetShowPrice?)
    || (c1.SetShowName? && c2.SetShowName?)
    || (c1.SetStartPosition? && c2.SetStartPosition?)
  }

  /** Changes of two different settings commute; of the same setting, the
      later one wins. */
  lemma SettingChangesCommute(s: LabelSettings, c1: SettingChange, c2: SettingChange)
    ensures SameSetting(c1, c2) ==>
      HandleSettingChange(HandleSettingChange(s, c1), c2) == HandleSettingChange(s, c2)
    ensures !SameSetting(c1, c2) ==> HandleSettingChange(HandleSettingChange(s, c1), c2) == HandleSettingChange(HandleSettingChange(s, c2), c1)
  {
  }
}
