/** rpc/error.go: translation between business error codes and gRPC status codes. */
module RpcError {
  import opened Wrappers
  import opened Text
  import opened Go
  import opened UtilError

  // Codes rpc/error.go reads from package util that util/error.go does not
  // declare; the model gives them distinct values of its own.
  const ErrCodeUnAuth: int := 11
  const ErrCodeNotFound: int := 12
  const ErrCodeCanceled: int := 13
  const ErrCodeAborted: int := 14

  /** codeRpcCodeMap */
  const CodeRpcCodeMap: map<int, nat> := map[
    ErrCodeIllegalArg := CodeInvalidArgument,
    ErrCodeIllegalState := CodeFailedPrecondition,
    ErrCodeUnAuth := CodeUnauthenticated,
    ErrCodeForbidden := CodePermissionDenied,
    ErrCodeTooOften := CodeResourceExhausted,
    ErrCodeTimeout := CodeDeadlineExceeded,
    ErrCodeInternal := CodeInternal,
    ErrCodeNotFound := CodeNotFound,
    ErrCodeCanceled := CodeCanceled,
    ErrCodeAborted := CodeAborted,
    ErrCodeUnknown := CodeUnknown,
    ErrCodeOK := CodeOK]

  /**
   * rpcCodeCodeMap's initializer: one pass over codeRpcCodeMap that records
   * each entry reversed.
   */
  method BuildRpcCodeCodeMap() returns (m: map<nat, int>)
    ensures m.Keys == CodeRpcCodeMap.Values
    ensures forall c :: c in m ==> m[c] in CodeRpcCodeMap && CodeRpcCodeMap[m[c]] == c
    ensures m == RpcCodeCodeMap
  {
    m := map[];
    var rest := CodeRpcCodeMap.Keys;
    while rest != {}
      invariant rest <= CodeRpcCodeMap.Keys
      invariant m.Keys == set k | k in CodeRpcCodeMap.Keys - rest :: CodeRpcCodeMap[k]
      invariant forall c :: c in m ==> m[c] in CodeRpcCodeMap.Keys - rest && CodeRpcCodeMap[m[c]] == c
      decreases rest
    {
      var k :| k in rest;
      m := m[CodeRpcCodeMap[k] := k];
      rest := rest - {k};
    }
    RpcCodeCodeMapIsInverse();
    forall c | c in m ensures m[c] == RpcCodeCodeMap[c] {
      assert CodeRpcCodeMap[RpcCodeCodeMap[c]] == c;
    }
  }

  /** rpcCodeCodeMap, as the initializer leaves it. */
  const RpcCodeCodeMap: map<nat, int> := map[
    CodeInvalidArgument := ErrCodeIllegalArg,
    CodeFailedPrecondition := ErrCodeIllegalState,
    CodeUnauthenticated := ErrCodeUnAuth,
    CodePermissionDenied := ErrCodeForbidden,
    CodeResourceExhausted := ErrCodeTooOften,
    CodeDeadlineExceeded := ErrCodeTimeout,
    CodeInternal := ErrCodeInternal,
    CodeNotFound := ErrCodeNotFound,
    CodeCanceled := ErrCodeCanceled,
    CodeAborted := ErrCodeAborted,
    CodeUnknown := ErrCodeUnknown,
    CodeOK := ErrCodeOK]

  /** The table written out is the one the initializer builds: the exact inverse. */
  lemma RpcCodeCodeMapIsInverse()
    ensures forall c :: c in RpcCodeCodeMap ==> RpcCodeCodeMap[c] in CodeRpcCodeMap && CodeRpcCodeMap[RpcCodeCodeMap[c]] == c
    ensures forall k :: k in CodeRpcCodeMap ==> CodeRpcCodeMap[k] in RpcCodeCodeMap && RpcCodeCodeMap[CodeRpcCodeMap[k]] == k
    ensures RpcCodeCodeMap.Keys == CodeRpcCodeMap.Values
  {
    RpcToBizInverts();
    BizToRpcInverts();
    forall v | v in CodeRpcCodeMap.Values ensures v in RpcCodeCodeMap {
      var k :| k in CodeRpcCodeMap && CodeRpcCodeMap[k] == v;
    }
  }

  /** Every gRPC code of the written table maps back to itself through codeRpcCodeMap. */
  lemma RpcToBizInverts()
    ensures forall c :: c in RpcCodeCodeMap ==> RpcCodeCodeMap[c] in CodeRpcCodeMap && CodeRpcCodeMap[RpcCodeCodeMap[c]] == c
  {
  }

  /** Every business code of codeRpcCodeMap maps back to itself through the written table. */
  lemma BizToRpcInverts()
    ensures forall k :: k in CodeRpcCodeMap ==> CodeRpcCodeMap[k] in RpcCodeCodeMap && RpcCodeCodeMap[CodeRpcCodeMap[k]] == k
  {
  }

  /** ToRpcErrCode: the table's gRPC code, else the default. */
  function ToRpcErrCode(bizErrCode: int, defaultRpcErrCode: nat): (r: nat)
    ensures bizErrCode in CodeRpcCodeMap ==> r == CodeRpcCodeMap[bizErrCode]
    ensures bizErrCode !in CodeRpcCodeMap ==> r == defaultRpcErrCode
  {
    if bizErrCode in CodeRpcCodeMap then CodeRpcCodeMap[bizErrCode] else defaultRpcErrCode
  }

  /** ToBizErrCode: the table's business code, else the default. */
  function ToBizErrCode(code: nat, defaultBizErrCode: int): (r: int)
    ensures code in RpcCodeCodeMap ==> r == RpcCodeCodeMap[code]
    ensures code !in RpcCodeCodeMap ==> r == defaultBizErrCode
  {
    if code in RpcCodeCodeMap then RpcCodeCodeMap[code] else defaultBizErrCode
  }

  /** IsRpcErrCode: a code gRPC defines, OK through Unauthenticated. */
  function IsRpcErrCode(code: nat): (r: bool)
    ensures r <==> code <= CodeUnauthenticated
  {
    code <= CodeUnauthenticated
  }

  /** The two conversions undo each other on the codes the table names. */
  lemma CodeConversionsRoundTrip(bizErrCode: int, code: nat, d: int, dc: nat)
    ensures bizErrCode in CodeRpcCodeMap ==> ToBizErrCode(ToRpcErrCode(bizErrCode, dc), d) == bizErrCode
    ensures code in RpcCodeCodeMap ==> ToRpcErrCode(ToBizErrCode(code, d), dc) == code
    ensures bizErrCode in CodeRpcCodeMap ==> IsRpcErrCode(ToRpcErrCode(bizErrCode, dc))
  {
    RpcCodeCodeMapIsInverse();
  }

  /**
   * IsRpcErr: status.FromError succeeds on nil and on a status error (the
   * model takes the check on the error itself, not on its chain).
   */
  function IsRpcErr(err: Option<Error>): (r: bool)
    ensures r <==> (err.None? || err.value.Status?)
  {
    err.None? || err.value.Status?
  }

  /**
   * ToRpcErr: a status error is returned unchanged; any other error becomes a
   * status error whose code comes from the BizError on its chain: the table's
   * gRPC code, else the business code itself as a codes.Code (Unknown without
   * a BizError). status.Error and status.Errorf give nil for codes.OK, so an
   * error whose code comes out as OK converts to nil. `args` is what
   * util.Sprintf makes of the extra arguments, and `sprintf` is fmt.Sprintf
   * applied to the message used as a format.
   */
  function ToRpcErr(err: Option<Error>, args: Option<string>, sprintf: string -> string): (r: Option<Error>)
    ensures IsRpcErr(err) ==> r == err
    ensures !IsRpcErr(err) && r.Some? ==> r.value.Status?
    ensures !IsRpcErr(err) && !IsBizError(err) ==> r.Some? && r.value.code == CodeUnknown
    ensures !IsRpcErr(err) && IsBizError(err) && GetBizErrCode(err) in CodeRpcCodeMap ==>
      (r.None? <==> GetBizErrCode(err) == ErrCodeOK) &&
      (r.Some? ==> r.value.code == CodeRpcCodeMap[GetBizErrCode(err)])
    ensures !IsRpcErr(err) && IsBizError(err) && GetBizErrCode(err) !in CodeRpcCodeMap ==>
      (r.None? <==> GetBizErrCode(err) % 0x1_0000_0000 == 0) &&
      (r.Some? ==> r.value.code == ToCode(GetBizErrCode(err)))
    ensures !IsRpcErr(err) && r.Some? && args.None? ==> r.value.msg == ErrorText(err.value)
    ensures !IsRpcErr(err) && r.Some? && args.Some? ==> r.value.msg == sprintf(args.value + "->" + ErrorText(err.value))
  {
    RpcCodeCodeMapIsInverse();
    if IsRpcErr(err) then err
    else
      var code := match AsBizError(err)
        case Some(e) => ToRpcErrCode(BizErrorCode(e), ToCode(BizErrorCode(e)))
        case None => CodeUnknown;
      if code == CodeOK then None
      else if args.None? then Some(Status(code, ErrorText(err.value)))
      else Some(Status(code, sprintf(args.value + "->" + ErrorText(err.value))))
  }

  /**
   * ToBizErr: a status error becomes a BizError with the table's code and the
   * message without its "(code)" prefix; any other error goes through
   * ToBizError.
   */
  function ToBizErr(err: Option<Error>): (r: Option<Error>)
    ensures err.None? <==> r.None?
    ensures r.Some? ==> r.value.Biz? && r.value.biz.Some?
    ensures err.Some? && !err.value.Status? ==> r == Some(Biz(Some(ToBizError(err))))
  {
    if err.None? then None
    else if err.value.Status? then
      var code := ToBizErrCode(err.value.code, err.value.code);
      var msg := TrimPrefix(err.value.msg, CodePrefix(code));
      Some(Biz(Some(NewBizError(code, None, msg))))
    else Some(Biz(Some(ToBizError(err))))
  }

  /**
   * A BizError sent as a gRPC status and read back keeps its code and its
   * message; only the cause, which never crosses the wire, is lost. A code
   * that maps to codes.OK converts to nil, and nil reads back as nil.
   */
  lemma BizErrThroughRpc(code: int, cause: Option<Error>, text: string, sprintf: string -> string)
    requires code in CodeRpcCodeMap
    ensures var b := NewBizError(code, cause, text);
      code != ErrCodeOK ==> ToBizErr(ToRpcErr(Some(Biz(Some(b))), None, sprintf)) == Some(Biz(Some(BizError(code, b.msg, None))))
    ensures var b := NewBizError(code, cause, text);
      code == ErrCodeOK ==> ToRpcErr(Some(Biz(Some(b))), None, sprintf).None? && ToBizErr(ToRpcErr(Some(Biz(Some(b))), None, sprintf)).None?
  {
    RpcCodeCodeMapIsInverse();
    var b := NewBizError(code, cause, text);
    if code != ErrCodeOK {
      var s := ToRpcErr(Some(Biz(Some(b))), None, sprintf);
      assert s == Some(Status(CodeRpcCodeMap[code], b.msg));
      var rest := TrimPrefix(b.msg, CodePrefix(code));
      assert CodePrefix(code) + rest == b.msg;
    }
  }

  /**
   * A business code the table does not name crosses as the raw gRPC code and
   * comes back as itself, when that raw code is not one the reverse table
   * names either (9999 goes to 9999 and back).
   */
  lemma UnmappedCodeThroughRpc(code: int, cause: Option<Error>, text: string, sprintf: string -> string)
    requires code !in CodeRpcCodeMap && 0 < code < 0x1_0000_0000 && code !in RpcCodeCodeMap
    ensures var b := NewBizError(code, cause, text);
      ToRpcErr(Some(Biz(Some(b))), None, sprintf) == Some(Status(code, b.msg))
    ensures var b := NewBizError(code, cause, text);
      ToBizErr(ToRpcErr(Some(Biz(Some(b))), None, sprintf)) == Some(Biz(Some(BizError(code, b.msg, None))))
  {
    var b := NewBizError(code, cause, text);
    var rest := TrimPrefix(b.msg, CodePrefix(code));
    assert CodePrefix(code) + rest == b.msg;
  }

  /**
   * Errors whose code comes out as codes.OK convert to nil: a BizError with
   * code 0, a nil *BizError (whose Code() is 0), and an unnamed code that is
   * 0 as a uint32.
   */
  lemma OkCodeConvertsToNil(cause: Option<Error>, text: string, args: Option<string>, sprintf: string -> string)
    ensures ToRpcErr(Some(Biz(Some(NewBizError(ErrCodeOK, cause, text)))), args, sprintf).None?
    ensures ToRpcErr(Some(Biz(None)), args, sprintf).None?
    ensures ToRpcErr(Some(Biz(Some(NewBizError(0x1_0000_0000, cause, text)))), args, sprintf).None?
  {
    var ok := NewBizError(ErrCodeOK, cause, text);
    assert GetBizErrCode(Some(Biz(Some(ok)))) == ErrCodeOK;
    assert GetBizErrCode(Some(Biz(None))) == ErrCodeOK;
    var wide := NewBizError(0x1_0000_0000, cause, text);
    assert GetBizErrCode(Some(Biz(Some(wide)))) == 0x1_0000_0000;
    assert 0x1_0000_0000 !in CodeRpcCodeMap;
  }
}
