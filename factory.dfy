/**
 * The stateless credit cards of
 * `DesignPattern.CreationalDesignPattern.FactoryDesignPattern`; the
 * `FactoryMethodDesignPattern` namespace declares the same three classes.
 */
module CreditCards {
  datatype Card = MoneyBack | Titanium | Platinum

  function GetCardType(c: Card): string
  {
    match c
    case MoneyBack => "MoneyBack"
    case Titanium => "Titanium Edge"
    case Platinum => "Platinum Plus"
  }

  function GetCreditLimit(c: Card): int
  {
    match c
    case MoneyBack => 15000
    case Titanium => 25000
    case Platinum => 35000
  }

  function GetAnnualCharge(c: Card): int
  {
    match c
    case MoneyBack => 500
    case Titanium => 1500
    case Platinum => 2000
  }
}

/** `CreditCardFactory.GetCreditCard` and the dispatch it replaces. */
module SimpleFactory {
  import opened Wrappers
  import opened CreditCards

  /** The string that selects each card. */
  function Key(c: Card): string
  {
    match c
    case MoneyBack => "MoneyBack"
    case Titanium => "Titanium"
    case Platinum => "Platinum"
  }

  /** The factory: an exact, case-sensitive match on one of three names, null for anything else. */
  function GetCreditCard(cardType: Option<string>): (r: Option<Card>)
    ensures r.Some? <==> cardType.Some? && cardType.value in {"MoneyBack", "Titanium", "Platinum"}
    ensures r.Some? ==> Key(r.value) == cardType.value
  {
    if cardType == Some("MoneyBack") then Some(MoneyBack)
    else if cardType == Some("Titanium") then Some(Titanium)
    else if cardType == Some("Platinum") then Some(Platinum)
    else None
  }

  /** Every card is made by its own key, and by no other string. */
  lemma KeySelectsCard(c: Card, s: Option<string>)
    ensures GetCreditCard(Some(Key(c))) == Some(c)
    ensures GetCreditCard(s) == Some(c) <==> s == Some(Key(c))
  {
  }

  /** The type name a card reports is its key only for MoneyBack. */
  lemma CardTypeIsKeyOnlyForMoneyBack(c: Card)
    ensures GetCardType(c) == Key(c) <==> c == MoneyBack
  {
  }

  /** The if/else chain of `ClientMethodWithoutFactoryPattern`, which picks a card the same way. */
  function InlineSelection(cardType: Option<string>): Option<Card>
  {
    if cardType == Some("MoneyBack") then Some(MoneyBack)
    else if cardType == Some("Titanium") then Some(Titanium)
    else if cardType == Some("Platinum") then Some(Platinum)
    else None
  }

  /** With or without the factory, the client gets the same card, or none in the same cases. */
  lemma FactoryMatchesInlineSelection(cardType: Option<string>)
    ensures GetCreditCard(cardType) == InlineSelection(cardType)
  {
  }

  /** `Program.Main` asks for "MoneyBack": limit 15000, annual charge 500. */
  lemma DemoCard()
    ensures GetCreditCard(Some("MoneyBack")) == Some(MoneyBack)
    ensures GetCardType(MoneyBack) == "MoneyBack" && GetCreditLimit(MoneyBack) == 15000 && GetAnnualCharge(MoneyBack) == 500
  {
  }
}

/**
 * `DesignPattern.CreationalDesignPattern.FactoryMethodDesignPattern`: each
 * concrete factory decides which card `CreateProduct` makes.
 */
module FactoryMethod {
  import opened CreditCards

  datatype CreditCardFactory = MoneyBackFactory | PlatinumFactory | TitaniumFactory

  /** The overrides of `MakeProduct`. */
  function MakeProduct(f: CreditCardFactory): Card
  {
    match f
    case MoneyBackFactory => MoneyBack
    case PlatinumFactory => Platinum
    case TitaniumFactory => Titanium
  }

  /** The template method: whatever the subclass's `MakeProduct` makes, never null. */
  function CreateProduct(f: CreditCardFactory): (c: Card)
    ensures c == MakeProduct(f)
  {
    MakeProduct(f)
  }

  /** Each factory makes its own card, and every card has exactly one factory. */
  lemma ProductsOfFactories()
    ensures GetCardType(CreateProduct(MoneyBackFactory)) == "MoneyBack"
    ensures GetCreditLimit(CreateProduct(MoneyBackFactory)) == 15000 && GetAnnualCharge(CreateProduct(MoneyBackFactory)) == 500
    ensures GetCardType(CreateProduct(PlatinumFactory)) == "Platinum Plus"
    ensures GetCreditLimit(CreateProduct(PlatinumFactory)) == 35000 && GetAnnualCharge(CreateProduct(PlatinumFactory)) == 2000
    ensures GetCardType(CreateProduct(TitaniumFactory)) == "Titanium Edge"
    ensures GetCreditLimit(CreateProduct(TitaniumFactory)) == 25000 && GetAnnualCharge(CreateProduct(TitaniumFactory)) == 1500
  {
  }

  lemma FactoryPerCard(c: Card)
    ensures exists f :: CreateProduct(f) == c
    ensures forall f, g :: CreateProduct(f) == c && CreateProduct(g) == c ==> f == g
  {
    var f := match c
      case MoneyBack => MoneyBackFactory
      case Titanium => TitaniumFactory
      case Platinum => PlatinumFactory;
    assert CreateProduct(f) == c;
  }
}
