/**
  Table and column names. The build step turns a sheet or column name into
  an identifier by replacing space, `:` and `;` with `_`
  (excel_database.py:22, :37); the sync step derives the table name of a
  sheet by replacing spaces only (excel_database.py:86). Both are modelled,
  and so is what their difference does.
*/
module Identifiers {
  import opened Text

  /** The characters the build step replaces by `_`. */
  predicate IsReplaced(c: char)
  {
    c == ' ' || c == ':' || c == ';'
  }

  /** A name in which the build step has nothing left to replace. */
  predicate IsClean(name: string)
  {
    forall i :: 0 <= i < |name| ==> !IsReplaced(name[i])
  }

  /** `name.replace(" ", "_").replace(":", "_").replace(";", "_")`. */
  function Sanitize(name: string): (r: string)
    ensures |r| == |name|
    ensures forall i :: 0 <= i < |name| ==> r[i] == if IsReplaced(name[i]) then '_' else name[i]
  {
    var spaces := Replace(name, ' ', "_");
    var colons := Replace(spaces, ':', "_");
    ReplaceOneChar(name, ' ', '_');
    ReplaceOneChar(spaces, ':', '_');
    ReplaceOneChar(colons, ';', '_');
    Replace(colons, ';', "_")
  }

  /** `name.replace(" ", "_")`, the table name the sync step looks up. */
  function SanitizeSpaces(name: string): (r: string)
    ensures |r| == |name|
    ensures forall i :: 0 <= i < |name| ==> r[i] == if name[i] == ' ' then '_' else name[i]
  {
    ReplaceOneChar(name, ' ', '_');
    Replace(name, ' ', "_")
  }

  /** A sanitised name contains no space, `:` or `;`. */
  lemma SanitizeIsClean(name: string)
    ensures IsClean(Sanitize(name))
  {
  }

  /** A name that is already clean is left as it is. */
  lemma SanitizeKeepsClean(name: string)
    requires IsClean(name)
    ensures Sanitize(name) == name
  {
  }

  /** Sanitising twice is sanitising once. */
  lemma SanitizeIdempotent(name: string)
    ensures Sanitize(Sanitize(name)) == Sanitize(name)
  {
    SanitizeIsClean(name);
    SanitizeKeepsClean(Sanitize(name));
  }

  /**
    The sync step looks a sheet up under the name the build step gave it
    exactly when the sheet name holds neither `:` nor `;`.
  */
  lemma {:induction false} LookupMatchesBuild(name: string)
    ensures SanitizeSpaces(name) == Sanitize(name) <==> ':' !in name && ';' !in name
  {
    if ':' in name || ';' in name {
      var i :| 0 <= i < |name| && (name[i] == ':' || name[i] == ';');
      assert SanitizeSpaces(name)[i] != Sanitize(name)[i];
    }
  }

  /**
    A sheet name holding `:` or `;` is looked up under a name that no build
    ever produces, so the sync step never finds its table.
  */
  lemma {:induction false} LookupNeverBuilt(name: string, other: string)
    requires ':' in name || ';' in name
    ensures SanitizeSpaces(name) != Sanitize(other)
  {
    var i :| 0 <= i < |name| && (name[i] == ':' || name[i] == ';');
    if |name| == |other| {
      assert SanitizeSpaces(name)[i] != Sanitize(other)[i];
    }
  }

  /** When the looked-up name is clean it is the name the build step uses. */
  lemma {:induction false} CleanLookupIsBuildName(name: string)
    requires IsClean(SanitizeSpaces(name))
    ensures SanitizeSpaces(name) == Sanitize(name)
  {
    forall i | 0 <= i < |name|
      ensures name[i] != ':' && name[i] != ';'
    {
      assert !IsReplaced(SanitizeSpaces(name)[i]);
    }
    LookupMatchesBuild(name);
  }
}
