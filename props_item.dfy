/** A row of the message-details tree table: a key, a value and two editability flags. */
module PropsItems {
  import opened Wrappers
  import opened Messages

  /** The text a non-null constructor value is stored as; null is stored as "". */
  function DisplayText(value: Value): (r: string)
    ensures value.Null? ==> r == ""
    ensures !value.Null? ==> r == Show(value)
  {
    if value.Null? then "" else Show(value)
  }

  /** PropsTreeTableItem: key and value are observable string properties; fieldName is fixed. */
  class PropsTreeTableItem {
    var key: Option<string>
    var value: Option<string>
    var editableKey: bool
    var editableValue: bool
    const fieldName: Option<string>

    /** The value is stored as its text, "" for null; the flags are the ones given. */
    constructor (fieldName: Option<string>, key: Option<string>, value: Value,
                 editableKey: bool, editableValue: bool)
      ensures this.fieldName == fieldName && this.key == key
      ensures this.value == Some(DisplayText(value))
      ensures this.editableKey == editableKey && this.editableValue == editableValue
    {
      this.fieldName := fieldName;
      this.key := key;
      this.value := Some(DisplayText(value));
      this.editableKey := editableKey;
      this.editableValue := editableValue;
    }

    /** setKey changes the key and nothing else. */
    method SetKey(k: Option<string>)
      modifies this`key
      ensures key == k
    {
      key := k;
    }

    /** setValue changes the value and nothing else. */
    method SetValue(v: Option<string>)
      modifies this`value
      ensures value == v
    {
      value := v;
    }
  }
}
