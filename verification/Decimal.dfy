/** Decimal rendering of natural numbers, as PostgreSQL prints a bigint and JavaScript splices it into a string. */
module Decimal {
  function Digit(d: nat): char
    requires d < 10
  {
    "0123456789"[d]
  }

  function Render(n: nat): (text: string)
    ensures text != ""
  {
    if n < 10 then [Digit(n)] else Render(n / 10) + [Digit(n % 10)]
  }

  /** The last character is the last digit; what precedes it renders the rest, and is empty for one digit only. */
  lemma RenderParts(n: nat)
    ensures var text := Render(n); var k := |text| - 1;
            && text[k] == Digit(n % 10)
            && (n < 10 ==> text[..k] == "")
            && (n >= 10 ==> text[..k] == Render(n / 10) && text[..k] != "")
  {}

  /** What a digit stands for. */
  function Value(c: char): nat {
    if '0' <= c <= '9' then c as nat - '0' as nat else 0
  }

  /** The number that a decimal text stands for. */
  function Read(text: string): nat {
    if text == "" then 0 else 10 * Read(text[..|text| - 1]) + Value(text[|text| - 1])
  }

  /** Reading the text back gives the number, and the text has no other characters than digits and no leading zero. */
  lemma {:induction false} RenderReadsBack(n: nat)
    ensures Read(Render(n)) == n
    ensures forall c :: c in Render(n) ==> '0' <= c <= '9'
    ensures n > 0 ==> Render(n)[0] != '0'
  {
    RenderParts(n);
    if n >= 10 {
      RenderReadsBack(n / 10);
      assert Read("") == 0;
    } else {
      assert Read(Render(n)[..|Render(n)| - 1]) == 0;
    }
  }

  lemma {:induction false} RenderInjective(m: nat, n: nat)
    requires Render(m) == Render(n)
    ensures m == n
    decreases m
  {
    RenderParts(m);
    RenderParts(n);
    if m >= 10 && n >= 10 {
      RenderInjective(m / 10, n / 10);
    }
  }

  /** server.js: `ORD-${next_id}`. */
  function OrderId(n: nat): string {
    "ORD-" + Render(n)
  }

  lemma OrderIdInjective(m: nat, n: nat)
    ensures OrderId(m) == OrderId(n) <==> m == n
  {
    if OrderId(m) == OrderId(n) {
      assert OrderId(m)[4..] == Render(m) && OrderId(n)[4..] == Render(n);
      RenderInjective(m, n);
    }
  }

  /** An order id is the prefix and the decimal text of its number. */
  lemma OrderIdReadsBack(n: nat)
    ensures OrderId(n)[..4] == "ORD-" && Read(OrderId(n)[4..]) == n
  {
    RenderReadsBack(n);
    assert OrderId(n)[4..] == Render(n);
  }
}
