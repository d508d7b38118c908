/** The cache key of a query: `'q:' . md5(mode . strtolower(modelClass)
    . sql . pagination)`. The digest is a parameter: md5 is not part of
    this model, only the text it is applied to. */
module CacheKeys {
  import opened Php

  /** A limit or offset of 0 or less is left out of the key, so all such
      values act as 0. */
  function Effective(n: int): nat {
    if n > 0 then n else 0
  }

  function LimitPart(limit: int): string {
    if limit > 0 then "limit" + Decimal(limit) else ""
  }

  function OffsetPart(offset: int): string {
    if offset > 0 then "offset" + Decimal(offset) else ""
  }

  /** The text appended for pagination: `limit<n>` only when the limit is
      positive, then `offset<n>` only when the offset is positive. */
  function Pagination(limit: int, offset: int): string {
    LimitPart(limit) + OffsetPart(offset)
  }

  /** The text that is hashed. */
  function PreHash(mode: string, modelClass: string, sql: string, limit: int, offset: int): string {
    mode + LowerStr(modelClass) + sql + Pagination(limit, offset)
  }

  /** `generateCacheKey`'s result, with `digest` standing for md5. */
  function CacheKey(mode: string, modelClass: string, sql: string, limit: int, offset: int,
                    digest: string -> string): (key: string)
    ensures |key| >= 2 && key[..2] == "q:"
    ensures key[2..] == digest(PreHash(mode, modelClass, sql, limit, offset))
  {
    "q:" + digest(PreHash(mode, modelClass, sql, limit, offset))
  }

  /** A collection query and a single-row query never hash the same text,
      whatever their model, SQL and pagination. */
  lemma ModesDiffer(modelClass: string, sql: string, limit: int, offset: int,
                    modelClass': string, sql': string, limit': int, offset': int)
    ensures PreHash("all", modelClass, sql, limit, offset) != PreHash("one", modelClass', sql', limit', offset')
  {
    assert PreHash("all", modelClass, sql, limit, offset)[0] == 'a';
    assert PreHash("one", modelClass', sql', limit', offset')[0] == 'o';
  }

  /** The model class enters the key without regard to ASCII case. */
  lemma ModelClassCaseInsensitive(mode: string, modelClass: string, modelClass': string, sql: string, limit: int, offset: int)
    requires LowerStr(modelClass) == LowerStr(modelClass')
    ensures PreHash(mode, modelClass, sql, limit, offset) == PreHash(mode, modelClass', sql, limit, offset)
  {
  }

  lemma OffsetPartInjective(offset: int, offset': int)
    requires OffsetPart(offset) == OffsetPart(offset')
    ensures Effective(offset) == Effective(offset')
  {
    var p, p' := OffsetPart(offset), OffsetPart(offset');
    assert offset > 0 <==> |p| > 0;
    assert offset' > 0 <==> |p'| > 0;
    if offset > 0 && offset' > 0 {
      assert p[6..] == Decimal(offset) && p'[6..] == Decimal(offset');
      DecimalInjective(offset, offset');
    }
  }

  /** The pagination text starts with "limit" exactly when the limit counts. */
  lemma PaginationHead(limit: int, offset: int)
    ensures limit > 0 <==> |Pagination(limit, offset)| > 0 && Pagination(limit, offset)[0] == 'l'
  {
    var rest := OffsetPart(offset);
    assert rest == [] || rest[0] == 'o';
    if limit <= 0 {
      assert Pagination(limit, offset) == rest;
    }
  }

  lemma OffsetPartHead(offset: int)
    ensures OffsetPart(offset) == [] || !IsDigit(OffsetPart(offset)[0])
  {
  }

  lemma LimitDigits(limit: int, offset: int)
    requires limit > 0
    ensures Pagination(limit, offset)[5..] == Decimal(limit) + OffsetPart(offset)
  {
    assert Pagination(limit, offset) == "limit" + (Decimal(limit) + OffsetPart(offset));
  }

  /** The pagination text determines the effective limit and offset. */
  lemma PaginationInjective(limit: int, offset: int, limit': int, offset': int)
    requires Pagination(limit, offset) == Pagination(limit', offset')
    ensures Effective(limit) == Effective(limit') && Effective(offset) == Effective(offset')
  {
    PaginationHead(limit, offset);
    PaginationHead(limit', offset');
    if limit > 0 {
      OffsetPartHead(offset);
      OffsetPartHead(offset');
      LimitDigits(limit, offset);
      LimitDigits(limit', offset');
      DigitPrefixUnique(Decimal(limit), OffsetPart(offset), Decimal(limit'), OffsetPart(offset'));
      DecimalInjective(limit, limit');
    } else {
      assert Pagination(limit, offset) == OffsetPart(offset);
      assert Pagination(limit', offset') == OffsetPart(offset');
    }
    OffsetPartInjective(offset, offset');
  }

  /** For one mode, model and SQL text, two paginations hash the same text
      exactly when their effective limits and offsets agree. */
  lemma PreHashPagination(mode: string, modelClass: string, sql: string,
                          limit: int, offset: int, limit': int, offset': int)
    ensures PreHash(mode, modelClass, sql, limit, offset) == PreHash(mode, modelClass, sql, limit', offset')
            <==> Effective(limit) == Effective(limit') && Effective(offset) == Effective(offset')
  {
    var head := mode + LowerStr(modelClass) + sql;
    if PreHash(mode, modelClass, sql, limit, offset) == PreHash(mode, modelClass, sql, limit', offset') {
      assert PreHash(mode, modelClass, sql, limit, offset)[|head|..] == Pagination(limit, offset);
      assert PreHash(mode, modelClass, sql, limit', offset')[|head|..] == Pagination(limit', offset');
      PaginationInjective(limit, offset, limit', offset');
    }
  }
}
