/**
 * The fixed enumeration of unit statuses (`WarehouseStatus`) and its label
 * map `items()`.
 */
module WarehouseStatus {
  import opened Php

  const NEW: int := 1
  const DEFECT: int := 2
  const TO_SUPPLIER: int := 3
  const INSTALEER: int := 4
  const AT_WORK: int := 5
  const DISMANTLED: int := 6

  /** `WarehouseStatus::items()`: every status code with its label. */
  function Items(): (m: map<int, string>)
    ensures m.Keys == {NEW, DEFECT, TO_SUPPLIER, INSTALEER, AT_WORK, DISMANTLED}
    ensures forall k :: k in m ==> m[k] != ""
  {
    map[
      NEW := "Новое оборудование",
      DEFECT := "Брак",
      TO_SUPPLIER := "Возврат поставщику",
      INSTALEER := "У монтажника",
      AT_WORK := "Установлено",
      DISMANTLED := "Демонтировано"
    ]
  }

  /** `WarehouseStatus::items()[$status]`: the label, or null (with a PHP
      notice) for a code outside the enumeration. */
  function LabelOf(status: int): (text: Scalar)
    ensures text != Null <==> 1 <= status <= 6
    ensures text != Null ==> text == Str(Items()[status]) && text.s != ""
  {
    if status in Items() then Str(Items()[status]) else Null
  }

  /** The six codes are the distinct integers 1 to 6, in declaration order. */
  lemma CodesAreOneToSix(status: int)
    ensures status in Items() <==> 1 <= status <= 6
    ensures NEW < DEFECT < TO_SUPPLIER < INSTALEER < AT_WORK < DISMANTLED
    ensures NEW == 1 && DISMANTLED == 6
  {
  }

  /** The labels are pairwise distinct, so a label identifies its status. */
  lemma LabelsDistinct(a: int, b: int)
    requires a in Items() && b in Items() && a != b
    ensures Items()[a] != Items()[b]
  {
  }
}
